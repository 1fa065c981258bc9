/**
 * scripts/check_comment_cleanup_scope.py: resolving the owner of every maintained path. The
 * ownership rules give each path a record; derived rules, notices, external entries,
 * dependency pins and format classes then update the records in place.
 */
module Ownership {
  import opened Wrappers
  import opened RepoPaths

  datatype Selector = PathSelector(path: string) | PrefixSelector(prefix: string) {
    function Text(): string {
      match this
      case PathSelector(p) => p
      case PrefixSelector(p) => p
    }
  }

  datatype Root = Root(id: string, selector: Selector, kind: string)

  datatype Rule = Rule(id: string, owner: string, state: string, disposition: string, priority: int,
                       selectors: seq<Selector>)

  /** A `python-imports` rule: it gives a file the owner of the modules it imports. */
  datatype DerivedRule = DerivedRule(id: string, state: string, disposition: string, priority: int,
                                     selectors: seq<Selector>)

  datatype Notice = Notice(path: string, owner: string, disposition: string)

  datatype ExternalEntry = ExternalEntry(selector: Selector, owner: string, disposition: string)

  /** `accepts` is the verifier applied to the file's content at the immutable base. */
  datatype FormatClass = FormatClass(id: string, accepts: string -> bool, extensions: seq<string>,
                                     selectors: seq<Selector>, owner: string, state: string, disposition: string)

  /** The `rule` field of a record: null, a rule id, or the ids of the rules that collide. */
  datatype RuleRef = Unruled | ById(id: string) | Collision(ids: set<string>)

  datatype Record = Record(path: string, kind: string, owner: Option<string>, state: string, disposition: string,
                           rule: RuleRef, competing: set<string>)

  datatype Code = SCOPE001 | SCOPE002 | SCOPE005

  datatype Finding = Finding(code: Code, subject: string)

  predicate Matches(path: string, s: Selector) {
    match s
    case PathSelector(p) => path == p
    case PrefixSelector(p) => StartsWith(path, p)
  }

  predicate MatchesAny(path: string, selectors: seq<Selector>) {
    exists s :: s in selectors && Matches(path, s)
  }

  // ---- maintained roots ----

  /** Selector length of the most specific matching root, -1 when none matches. */
  function Specificity(path: string, roots: seq<Root>): (n: int)
    ensures forall r :: r in roots && Matches(path, r.selector) ==> |r.selector.Text()| <= n
    ensures n == -1 || exists r :: r in roots && Matches(path, r.selector) && |r.selector.Text()| == n
    ensures n >= -1
  {
    if roots == [] then -1
    else
      var rest := Specificity(path, roots[1..]);
      if Matches(path, roots[0].selector) && |roots[0].selector.Text()| > rest then |roots[0].selector.Text()| else rest
  }

  function MostSpecific(path: string, roots: seq<Root>, n: int): seq<Root> {
    Filter(roots, (r: Root) => Matches(path, r.selector) && |r.selector.Text()| == n)
  }

  /** `selected_root`; `Err` is the maintained-root collision. */
  function SelectedRoot(path: string, roots: seq<Root>): Result<Option<Root>, ()> {
    var n := Specificity(path, roots);
    if n == -1 then Ok(None)
    else
      var selected := MostSpecific(path, roots, n);
      if |selected| == 1 then Ok(Some(selected[0])) else Err(())
  }

  // ---- ownership rules ----

  function Candidates(path: string, rules: seq<Rule>): seq<Rule> {
    Filter(rules, (r: Rule) => MatchesAny(path, r.selectors))
  }

  function MaxPriority(rules: seq<Rule>): (n: int)
    requires rules != []
    ensures forall r :: r in rules ==> r.priority <= n
    ensures exists r :: r in rules && r.priority == n
  {
    if |rules| == 1 then rules[0].priority
    else
      var rest := MaxPriority(rules[1..]);
      if rules[0].priority > rest then rules[0].priority else rest
  }

  function WithPriority(rules: seq<Rule>, n: int): seq<Rule> {
    Filter(rules, (r: Rule) => r.priority == n)
  }

  /** The rules selected for a path, when some rule matches it. */
  function SelectedRules(path: string, rules: seq<Rule>): seq<Rule>
    requires Candidates(path, rules) != []
  {
    WithPriority(Candidates(path, rules), MaxPriority(Candidates(path, rules)))
  }

  /** A record, the priority its rule had, and the finding it raised: one path of `owned_paths`. */
  datatype Owned = Owned(record: Record, priority: Option<int>, finding: Option<Finding>)

  function OwnPath(path: string, kind: string, rules: seq<Rule>): (o: Owned)
    ensures o.record.path == path
  {
    var candidates := Candidates(path, rules);
    if candidates == [] then
      Owned(Record(path, kind, None, "blocked", "Ownership is not frozen for this maintained path.", Unruled, {}),
            None, Some(Finding(SCOPE001, path)))
    else
      var selected := SelectedRules(path, rules);
      if |selected| != 1 then
        Owned(Record(path, kind, None, "blocked", "Conflicting ownership rules require integrator resolution.",
                     Collision(set r | r in selected :: r.id), set r | r in selected :: r.owner),
              None, Some(Finding(SCOPE002, path)))
      else
        var rule := selected[0];
        Owned(Record(path, kind, Some(rule.owner), rule.state, rule.disposition, ById(rule.id), {}),
              Some(rule.priority), None)
  }

  /** The paths under a maintained root, each resolved; `Err` at a root collision. */
  function OwnAll(paths: seq<string>, roots: seq<Root>, rules: seq<Rule>): Result<seq<Owned>, ()> {
    if paths == [] then Ok([])
    else
      match OwnAll(paths[..|paths| - 1], roots, rules)
      case Err(e) => Err(e)
      case Ok(earlier) =>
        match SelectedRoot(paths[|paths| - 1], roots)
        case Err(e) => Err(e)
        case Ok(None) => Ok(earlier)
        case Ok(Some(root)) => Ok(earlier + [OwnPath(paths[|paths| - 1], root.kind, rules)])
  }

  // ---- one record through the overlays ----

  /** `import_owner`: the owner a file's imports agree on, given the owners of the package. */
  type ImportOwner = (string, map<string, Option<string>>) -> Option<string>

  predicate Eligible(r: Record, priority: Option<int>, rule: DerivedRule) {
    && EndsWith(r.path, ".py") && !r.rule.Collision?
    && (if priority.Some? then priority.value else -1) < rule.priority
    && MatchesAny(r.path, rule.selectors)
  }

  function DerivedStep(r: Record, priority: Option<int>, rule: DerivedRule, owner: Option<string>)
    : (Record, Option<int>) {
    if Eligible(r, priority, rule) && owner.Some? then
      (r.(owner := owner, state := rule.state, disposition := rule.disposition, rule := ById(rule.id)),
       Some(rule.priority))
    else (r, priority)
  }

  function DerivedSteps(r: Record, priority: Option<int>, rules: seq<DerivedRule>, owner: Option<string>)
    : (Record, Option<int>) {
    if rules == [] then (r, priority)
    else
      var (r', p') := DerivedSteps(r, priority, rules[..|rules| - 1], owner);
      DerivedStep(r', p', rules[|rules| - 1], owner)
  }

  /** The last notice for a path wins (`by_path` is a dict). */
  function NoticeFor(path: string, notices: seq<Notice>): Option<Notice> {
    if notices == [] then None
    else if notices[|notices| - 1].path == path then Some(notices[|notices| - 1])
    else NoticeFor(path, notices[..|notices| - 1])
  }

  predicate NoticeConflicts(r: Record, notices: seq<Notice>) {
    var n := NoticeFor(r.path, notices);
    n.Some? && !r.rule.Collision? && r.owner.Some? && r.owner != Some(n.value.owner)
  }

  function NoticeStep(r: Record, notices: seq<Notice>): Record {
    var n := NoticeFor(r.path, notices);
    if n.None? || r.rule.Collision? || NoticeConflicts(r, notices) then r
    else
      r.(owner := Some(n.value.owner), state := "blocked", disposition := n.value.disposition, rule := ById("notice"),
         competing := {})
  }

  function FirstEntry(path: string, entries: seq<ExternalEntry>): Option<ExternalEntry> {
    if entries == [] then None
    else if Matches(path, entries[0].selector) then Some(entries[0])
    else FirstEntry(path, entries[1..])
  }

  function ExternalStep(r: Record, entries: seq<ExternalEntry>): Record {
    var e := FirstEntry(r.path, entries);
    if r.owner.Some? || r.rule.Collision? || e.None? then r
    else
      r.(owner := Some(e.value.owner), state := "excluded", disposition := e.value.disposition,
         rule := ById("external"))
  }

  predicate InClass(r: Record, c: FormatClass) {
    && r.owner.None? && !r.rule.Collision?
    && Lower(if Suffix(BaseName(r.path)) != "" then Suffix(BaseName(r.path)) else BaseName(r.path)) in c.extensions
    && MatchesAny(r.path, c.selectors) && c.accepts(r.path)
  }

  function FormatStep(r: Record, c: FormatClass): Record {
    if InClass(r, c) then
      r.(owner := Some(c.owner), state := c.state, disposition := c.disposition, rule := ById("format:" + c.id))
    else r
  }

  function FormatSteps(r: Record, classes: seq<FormatClass>): Record {
    if classes == [] then r
    else FormatStep(FormatSteps(r, classes[..|classes| - 1]), classes[|classes| - 1])
  }

  /** `by_rule`: the ownership rule with an id; the last one wins. */
  function RuleById(id: string, rules: seq<Rule>): Option<Rule> {
    if rules == [] then None
    else if rules[|rules| - 1].id == id then Some(rules[|rules| - 1])
    else RuleById(id, rules[..|rules| - 1])
  }

  /**
   * May `immutable_dependency_artifacts` pin this wheel: an excluded external record, or one
   * whose rule names no exact path.
   */
  predicate Pinnable(r: Record, rules: seq<Rule>) {
    && EndsWith(r.path, ".whl") && r.rule.ById?
    && ((r.rule.id == "external" && r.state == "excluded") ||
        (RuleById(r.rule.id, rules).Some? &&
         forall s :: s in RuleById(r.rule.id, rules).value.selectors ==> !s.PathSelector?))
  }

  /** `pinned` says that the lock file, project file and wheel bind the path. */
  function PinStep(r: Record, rules: seq<Rule>, pinned: string -> bool): Record {
    if Pinnable(r, rules) && pinned(r.path) then
      r.(owner := Some("comment-cleanup-external-ownership"), state := "excluded", rule := ById("immutable-dependency"),
         disposition := "pinned")
    else r
  }

  // ---- the whole pipeline for one path ----

  /** The policy parts after the ownership rules, with the evidence they consult. */
  datatype Policy = Policy(rules: seq<Rule>, derived: seq<DerivedRule>, importOwner: ImportOwner, notices: seq<Notice>,
                           external: seq<ExternalEntry>, pinned: string -> bool, classes: seq<FormatClass>)

  function Derive(o: Owned, policy: Policy, packageOwners: map<string, Option<string>>): Record {
    DerivedSteps(o.record, o.priority, policy.derived, policy.importOwner(o.record.path, packageOwners)).0
  }

  /** What `main` makes of one owned path. */
  /** The overlays after the derived rules. */
  function Overlaid(r: Record, policy: Policy): Record {
    FormatSteps(PinStep(ExternalStep(NoticeStep(r, policy.notices), policy.external), policy.rules, policy.pinned),
                policy.classes)
  }

  function Resolve(o: Owned, policy: Policy, packageOwners: map<string, Option<string>>): Record {
    Overlaid(Derive(o, policy, packageOwners), policy)
  }

  // ---- validation of priorities and external prefixes ----

  /** No rule that names a path exactly is at or below the priority of a derived rule for it. */
  ghost predicate PrioritiesAccepted(rules: seq<Rule>, derived: seq<DerivedRule>) {
    forall r, s, d | r in rules && s in r.selectors && s.PathSelector? && d in derived :: Outranks(r, s.path, d)
  }

  predicate Outranks(r: Rule, path: string, d: DerivedRule) {
    MatchesAny(path, d.selectors) ==> r.priority > d.priority
  }

  /** `validate_rule_priorities`. */
  method ValidateRulePriorities(rules: seq<Rule>, derived: seq<DerivedRule>) returns (ok: bool)
    ensures ok <==> PrioritiesAccepted(rules, derived)
  {
    for i := 0 to |rules|
      invariant PrioritiesAccepted(rules[..i], derived)
    {
      var rule := rules[i];
      TakeNext(rules, i);
      assert rule in rules;
      for j := 0 to |rule.selectors|
        invariant PrioritiesAccepted([rule.(selectors := rule.selectors[..j])], derived)
      {
        var selector := rule.selectors[j];
        TakeNext(rule.selectors, j);
        assert selector in rule.selectors;
        if selector.PathSelector? {
          for k := 0 to |derived|
            invariant forall d :: d in derived[..k] ==> Outranks(rule, selector.path, d)
          {
            TakeNext(derived, k);
            assert derived[k] in derived;
            if rule.priority <= derived[k].priority && MatchesAny(selector.path, derived[k].selectors) {
              return false;
            }
          }
          TakeAll(derived);
        }
      }
      TakeAll(rule.selectors);
    }
    TakeAll(rules);
    return true;
  }

  // ---- what the rules and roots select ----

  /** The one rule that matches the path above all other matching rules. */
  ghost predicate IsTopRule(path: string, rules: seq<Rule>, r: Rule) {
    && r in rules && MatchesAny(path, r.selectors)
    && forall other :: other in rules && other != r && MatchesAny(path, other.selectors) ==> other.priority < r.priority
  }

  lemma SelectedIsTop(path: string, rules: seq<Rule>, r: Rule)
    requires Distinct(rules) && Candidates(path, rules) != []
    ensures SelectedRules(path, rules) == [r] <==> IsTopRule(path, rules, r)
  {
    var candidates := Candidates(path, rules);
    var n := MaxPriority(candidates);
    FilterDistinct(rules, (x: Rule) => MatchesAny(path, x.selectors));
    FilterDistinct(candidates, (x: Rule) => x.priority == n);
    SingletonIff(SelectedRules(path, rules), r);
  }

  /**
   * A path is owned by `r` if and only if `r` alone matches it at the highest priority;
   * it has no rule if and only if none matches; otherwise its rules collide.
   */
  lemma RuleOwnsIffTop(path: string, kind: string, rules: seq<Rule>, r: Rule)
    requires Distinct(rules)
    ensures var o := OwnPath(path, kind, rules);
            && (IsTopRule(path, rules, r) ==> o.record.owner == Some(r.owner) && o.record.rule == ById(r.id) &&
                                              o.priority == Some(r.priority) && o.finding == None)
            && (o.record.rule.ById? ==> exists top :: IsTopRule(path, rules, top) && o.record.rule == ById(top.id))
            && (o.record.rule.Unruled? <==> forall x :: x in rules ==> !MatchesAny(path, x.selectors))
  {
    var candidates := Candidates(path, rules);
    if candidates != [] {
      assert candidates[0] in candidates;
      SelectedIsTop(path, rules, r);
      var selected := SelectedRules(path, rules);
      if |selected| == 1 {
        SelectedIsTop(path, rules, selected[0]);
      }
    }
  }

  /** The root of a path: the one matching root whose selector is longer than every other's. */
  ghost predicate IsTopRoot(path: string, roots: seq<Root>, r: Root) {
    && r in roots && Matches(path, r.selector)
    && forall other :: other in roots && other != r && Matches(path, other.selector) ==>
                         |other.selector.Text()| < |r.selector.Text()|
  }

  /** `selected_root` finds the most specific root exactly when there is just one. */
  lemma RootIffMostSpecific(path: string, roots: seq<Root>, r: Root)
    requires Distinct(roots)
    ensures SelectedRoot(path, roots) == Ok(Some(r)) <==> IsTopRoot(path, roots, r)
    ensures SelectedRoot(path, roots) == Ok(None) <==> forall x :: x in roots ==> !Matches(path, x.selector)
  {
    var n := Specificity(path, roots);
    var selected := MostSpecific(path, roots, n);
    FilterDistinct(roots, (x: Root) => Matches(path, x.selector) && |x.selector.Text()| == n);
    SingletonIff(selected, r);
  }

  // ---- exact-path ownership is protected ----

  /** The rule names the path exactly. */
  predicate NamesExactly(r: Rule, path: string) {
    PathSelector(path) in r.selectors
  }

  /** An exactly named path has a collision, or a priority no smaller than the naming rule's. */
  lemma ExactRulePriority(path: string, kind: string, rules: seq<Rule>, r: Rule)
    requires r in rules && NamesExactly(r, path)
    ensures var o := OwnPath(path, kind, rules);
            o.record.rule.Collision? || (o.priority.Some? && o.priority.value >= r.priority)
  {
    assert Matches(path, PathSelector(path)) && MatchesAny(path, r.selectors);
    assert r in Candidates(path, rules);
  }

  lemma {:induction false} DerivedStepsKeep(r: Record, priority: Option<int>, rules: seq<DerivedRule>,
                                            owner: Option<string>)
    requires forall d :: d in rules ==> !Eligible(r, priority, d)
    ensures DerivedSteps(r, priority, rules, owner) == (r, priority)
  {
    if rules != [] {
      DerivedStepsKeep(r, priority, rules[..|rules| - 1], owner);
    }
  }

  /**
   * Once the priorities are accepted, no derived rule changes the record of a path that some
   * ownership rule names exactly, whatever the priorities, the imports, and the rule order.
   */
  lemma ExactPathsAreProtected(path: string, kind: string, r: Rule, policy: Policy, owners: map<string, Option<string>>)
    requires PrioritiesAccepted(policy.rules, policy.derived)
    requires r in policy.rules && NamesExactly(r, path)
    ensures Derive(OwnPath(path, kind, policy.rules), policy, owners) == OwnPath(path, kind, policy.rules).record
  {
    var o := OwnPath(path, kind, policy.rules);
    ExactRulePriority(path, kind, policy.rules, r);
    forall d | d in policy.derived
      ensures !Eligible(o.record, o.priority, d)
    {
      assert Outranks(r, PathSelector(path).path, d);
    }
    DerivedStepsKeep(o.record, o.priority, policy.derived, policy.importOwner(path, owners));
  }

  // ---- the highest derived rule wins ----

  /** `priorities.get(path, -1)`. */
  function Level(priority: Option<int>): int {
    if priority.Some? then priority.value else -1
  }

  /** Rule `i` is the first of the matching rules with the highest priority, and above `level`. */
  ghost predicate FirstHighest(path: string, level: int, rules: seq<DerivedRule>, i: int) {
    && 0 <= i < |rules| && MatchesAny(path, rules[i].selectors) && rules[i].priority > level
    && (forall j :: 0 <= j < |rules| && MatchesAny(path, rules[j].selectors) ==> rules[j].priority <= rules[i].priority)
    && (forall j :: 0 <= j < i && MatchesAny(path, rules[j].selectors) ==> rules[j].priority < rules[i].priority)
  }

  /** No matching rule is above `level`. */
  ghost predicate NoneAbove(path: string, level: int, rules: seq<DerivedRule>) {
    forall d :: d in rules && MatchesAny(path, d.selectors) ==> d.priority <= level
  }

  function TakenBy(r: Record, owner: Option<string>, d: DerivedRule): (Record, Option<int>) {
    (r.(owner := owner, state := d.state, disposition := d.disposition, rule := ById(d.id)), Some(d.priority))
  }

  /** No rule is high enough, or the first highest one has taken the record. */
  ghost predicate HighestTook(r: Record, priority: Option<int>, rules: seq<DerivedRule>, owner: Option<string>,
                              result: (Record, Option<int>)) {
    || (NoneAbove(r.path, Level(priority), rules) && result == (r, priority))
    || (exists i :: FirstHighest(r.path, Level(priority), rules, i) && result == TakenBy(r, owner, rules[i]))
  }

  /**
   * The derived rules are applied one after the other, each looking at the priorities left by
   * the earlier ones; the outcome is that of the first rule of the highest priority alone, and
   * only if that is above the priority of the ownership rule.
   */
  lemma {:induction false} HighestDerivedRuleWins(r: Record, priority: Option<int>, rules: seq<DerivedRule>,
                                                  owner: Option<string>)
    requires owner.Some? && EndsWith(r.path, ".py") && !r.rule.Collision?
    ensures HighestTook(r, priority, rules, owner, DerivedSteps(r, priority, rules, owner))
  {
    if rules != [] {
      var last := |rules| - 1;
      HighestDerivedRuleWins(r, priority, rules[..last], owner);
      HighestStep(r, priority, rules[..last], rules[last], owner, DerivedSteps(r, priority, rules[..last], owner));
      assert rules == rules[..last] + [rules[last]];
    }
  }

  lemma HighestStep(r: Record, priority: Option<int>, rules: seq<DerivedRule>, d: DerivedRule, owner: Option<string>,
                    result: (Record, Option<int>))
    requires owner.Some? && EndsWith(r.path, ".py") && !r.rule.Collision?
    requires HighestTook(r, priority, rules, owner, result)
    ensures HighestTook(r, priority, rules + [d], owner, DerivedStep(result.0, result.1, d, owner))
  {
    var level := Level(priority);
    if NoneAbove(r.path, level, rules) && result == (r, priority) {
      if MatchesAny(r.path, d.selectors) && d.priority > level {
        NewHighest(r.path, level, rules, d);
      }
    } else {
      var i :| FirstHighest(r.path, level, rules, i) && result == TakenBy(r, owner, rules[i]);
      var winner := if MatchesAny(r.path, d.selectors) && d.priority > rules[i].priority then |rules| else i;
      assert FirstHighest(r.path, level, rules + [d], winner);
    }
  }

  lemma NewHighest(path: string, level: int, rules: seq<DerivedRule>, d: DerivedRule)
    requires NoneAbove(path, level, rules) && MatchesAny(path, d.selectors) && d.priority > level
    ensures FirstHighest(path, level, rules + [d], |rules|)
  {
    forall j | 0 <= j < |rules| && MatchesAny(path, rules[j].selectors)
      ensures rules[j].priority < d.priority
    {
      assert rules[j] in rules;
    }
  }

  // ---- collisions and unowned paths stay visible ----

  lemma {:induction false} FormatStepsKeep(r: Record, classes: seq<FormatClass>)
    requires r.owner.Some? || r.rule.Collision?
    ensures FormatSteps(r, classes) == r
  {
    if classes != [] {
      FormatStepsKeep(r, classes[..|classes| - 1]);
    }
  }

  /** A collision record passes every overlay unchanged, with no owner. */
  lemma CollisionsPersist(path: string, kind: string, policy: Policy, owners: map<string, Option<string>>)
    requires OwnPath(path, kind, policy.rules).record.rule.Collision?
    ensures Resolve(OwnPath(path, kind, policy.rules), policy, owners) == OwnPath(path, kind, policy.rules).record
    ensures Resolve(OwnPath(path, kind, policy.rules), policy, owners).owner == None
  {
    var o := OwnPath(path, kind, policy.rules);
    DerivedStepsKeep(o.record, o.priority, policy.derived, policy.importOwner(path, owners));
    FormatStepsKeep(o.record, policy.classes);
  }

  /** An owner that the rules and derived rules gave survives every later overlay but a pin. */
  lemma OwnersSurvive(o: Owned, policy: Policy, owners: map<string, Option<string>>)
    requires Derive(o, policy, owners).owner.Some?
    requires !policy.pinned(o.record.path)
    ensures Resolve(o, policy, owners).owner == Derive(o, policy, owners).owner
  {
    var derived := Derive(o, policy, owners);
    DerivedPath(o.record, o.priority, policy.derived, policy.importOwner(o.record.path, owners));
    var pinned := PinStep(ExternalStep(NoticeStep(derived, policy.notices), policy.external),
                          policy.rules, policy.pinned);
    FormatStepsKeep(pinned, policy.classes);
  }

  lemma {:induction false} DerivedPath(r: Record, priority: Option<int>, rules: seq<DerivedRule>, owner: Option<string>)
    ensures DerivedSteps(r, priority, rules, owner).0.path == r.path
  {
    if rules != [] {
      DerivedPath(r, priority, rules[..|rules| - 1], owner);
    }
  }

  /** No overlay takes an owner away. */
  lemma OwnedStaysOwned(o: Owned, policy: Policy, owners: map<string, Option<string>>)
    requires Derive(o, policy, owners).owner.Some?
    ensures Resolve(o, policy, owners).owner.Some?
  {
    var derived := Derive(o, policy, owners);
    var pinned := PinStep(ExternalStep(NoticeStep(derived, policy.notices), policy.external),
                          policy.rules, policy.pinned);
    FormatStepsKeep(pinned, policy.classes);
  }

  // ---- which part of the policy decides ----

  /** The first class, in policy order, that takes the record. */
  function FirstClass(r: Record, classes: seq<FormatClass>): Option<FormatClass> {
    if classes == [] then None
    else if InClass(r, classes[0]) then Some(classes[0])
    else FirstClass(r, classes[1..])
  }

  lemma {:induction false} FirstClassAppend(r: Record, classes: seq<FormatClass>, c: FormatClass)
    ensures FirstClass(r, classes + [c]) ==
            if FirstClass(r, classes).Some? then FirstClass(r, classes) else if InClass(r, c) then Some(c) else None
  {
    if classes == [] {
      assert classes + [c] == [c] && [c][1..] == [];
    } else {
      assert (classes + [c])[1..] == classes[1..] + [c];
      FirstClassAppend(r, classes[1..], c);
    }
  }

  /** The classes are tried one after the other, but only the first that fits has an effect. */
  lemma {:induction false} FormatTakesFirst(r: Record, classes: seq<FormatClass>)
    ensures FormatSteps(r, classes) ==
            if FirstClass(r, classes).Some? then FormatStep(r, FirstClass(r, classes).value) else r
  {
    if classes != [] {
      var init, c := classes[..|classes| - 1], classes[|classes| - 1];
      assert classes == init + [c];
      FormatTakesFirst(r, init);
      FirstClassAppend(r, init, c);
      FirstClassFits(r, init);
    }
  }

  lemma {:induction false} FirstClassFits(r: Record, classes: seq<FormatClass>)
    ensures FirstClass(r, classes).Some? ==> InClass(r, FirstClass(r, classes).value)
  {
    if classes != [] {
      FirstClassFits(r, classes[1..]);
    }
  }

  /** The part of the policy that settles a record, given what rules and derived rules made of it. */
  datatype Decider = Conflict | Rules | ByNotice(notice: Notice) | ByEntry(entry: ExternalEntry) |
                     ByClass(formatClass: FormatClass) | Nobody | Pin

  /** Leaving pins aside. */
  function UnpinnedDecider(derived: Record, policy: Policy): Decider {
    var notice, entry := NoticeFor(derived.path, policy.notices), FirstEntry(derived.path, policy.external);
    var formatClass := FirstClass(derived, policy.classes);
    if derived.rule.Collision? then Conflict
    else if notice.Some? && derived.owner in {None, Some(notice.value.owner)} then ByNotice(notice.value)
    else if derived.owner.Some? then Rules
    else if entry.Some? then ByEntry(entry.value)
    else if formatClass.Some? then ByClass(formatClass.value)
    else Nobody
  }

  function DeciderOf(derived: Record, policy: Policy): Decider {
    var d := UnpinnedDecider(derived, policy);
    if policy.pinned(derived.path) && Pinnable(BeforeClasses(derived, d), policy.rules) then Pin else d
  }

  /** The record that the pins look at: classes have not been applied yet. */
  function BeforeClasses(derived: Record, d: Decider): Record {
    if d.ByClass? then derived
    else
      var (owner, state, rule) := Decision(derived, d);
      derived.(owner := owner, state := state, rule := rule)
  }

  /** The decision a decider stands for: owner, state and rule. */
  function Decision(derived: Record, d: Decider): (Option<string>, string, RuleRef) {
    match d
    case ByNotice(n) => (Some(n.owner), "blocked", ById("notice"))
    case ByEntry(e) => (Some(e.owner), "excluded", ById("external"))
    case ByClass(c) => (Some(c.owner), c.state, ById("format:" + c.id))
    case Pin => (Some("comment-cleanup-external-ownership"), "excluded", ById("immutable-dependency"))
    case _ => (derived.owner, derived.state, derived.rule)
  }

  /**
   * The precedence of the overlays, for every policy: a collision stands; a notice that agrees
   * with the rules or finds no owner decides; else the rules; else the first external entry;
   * else the first format class. A pin overrides all but a collision, where it may: an excluded
   * external record, or a rule that names no exact path.
   */
  lemma OneDeciderWins(o: Owned, policy: Policy, owners: map<string, Option<string>>)
    ensures var derived, r := Derive(o, policy, owners), Resolve(o, policy, owners);
            (r.owner, r.state, r.rule) == Decision(derived, DeciderOf(derived, policy))
  {
    LayersDecide(Derive(o, policy, owners), policy);
  }

  /** Before pins and classes a record is settled, or untouched and open to the classes. */
  lemma SettledOrOpen(derived: Record, policy: Policy)
    ensures var d, r := UnpinnedDecider(derived, policy),
                        ExternalStep(NoticeStep(derived, policy.notices), policy.external);
            if d in {Conflict, Rules} || d.ByNotice? || d.ByEntry?
            then r.path == derived.path && (r.owner.Some? || r.rule.Collision?) &&
                 (r.owner, r.state, r.rule) == Decision(derived, d)
            else r == derived && r.owner.None? && !r.rule.Collision?
  {
    var noticed := NoticeStep(derived, policy.notices);
    assert noticed.path == derived.path;
    assert UnpinnedDecider(derived, policy).ByNotice? || noticed == derived;
  }

  /** Pins only look at path, state and rule. */
  lemma PinnableOnly(a: Record, b: Record, rules: seq<Rule>)
    requires a.path == b.path && a.state == b.state && a.rule == b.rule
    ensures Pinnable(a, rules) <==> Pinnable(b, rules)
  {
  }

  lemma LayersDecide(derived: Record, policy: Policy)
    ensures var r := Overlaid(derived, policy);
            (r.owner, r.state, r.rule) == Decision(derived, DeciderOf(derived, policy))
  {
    var before := ExternalStep(NoticeStep(derived, policy.notices), policy.external);
    SettledOrOpen(derived, policy);
    PinnableOnly(before, BeforeClasses(derived, UnpinnedDecider(derived, policy)), policy.rules);
    LastLayers(derived, before, policy);
  }

  /** A pin, where it may apply, settles the record; else it stays. */
  lemma PinLayer(derived: Record, r: Record, policy: Policy)
    ensures var p := PinStep(r, policy.rules, policy.pinned); var last := FormatSteps(p, policy.classes);
            if Pinnable(r, policy.rules) && policy.pinned(r.path)
            then (last.owner, last.state, last.rule) == Decision(derived, Pin)
            else p == r
  {
    ClassesDecide(PinStep(r, policy.rules, policy.pinned), policy.classes);
  }

  /** Pins and classes, on a record that is settled or open. */
  lemma LastLayers(derived: Record, before: Record, policy: Policy)
    requires var d := UnpinnedDecider(derived, policy);
             && before.path == derived.path
             && (Pinnable(before, policy.rules) <==> Pinnable(BeforeClasses(derived, d), policy.rules))
             && (if d in {Conflict, Rules} || d.ByNotice? || d.ByEntry?
                 then (before.owner.Some? || before.rule.Collision?) &&
                      (before.owner, before.state, before.rule) == Decision(derived, d)
                 else before == derived && before.owner.None? && !before.rule.Collision?)
    ensures var r := FormatSteps(PinStep(before, policy.rules, policy.pinned), policy.classes);
            (r.owner, r.state, r.rule) == Decision(derived, DeciderOf(derived, policy))
  {
    PinLayer(derived, before, policy);
    if !(Pinnable(before, policy.rules) && policy.pinned(before.path)) {
      ClassesDecide(before, policy.classes);
    }
  }

  /** The last layer: a settled record stays, an open one goes to the first class that fits. */
  lemma ClassesDecide(r: Record, classes: seq<FormatClass>)
    ensures r.owner.Some? || r.rule.Collision? ==> FormatSteps(r, classes) == r
    ensures var c := FirstClass(r, classes);
            r.owner.None? && !r.rule.Collision? ==>
              FormatSteps(r, classes) == if c.None? then r else FormatStep(r, c.value)
    ensures FirstClass(r, classes).Some? ==> InClass(r, FirstClass(r, classes).value)
  {
    FormatTakesFirst(r, classes);
    FirstClassFits(r, classes);
    if r.owner.Some? || r.rule.Collision? {
      FormatStepsKeep(r, classes);
    }
  }

  // ---- external entries: the first match is the most specific prefix ----

  function Prefixes(entries: seq<ExternalEntry>): seq<string> {
    if entries == [] then []
    else (if entries[0].selector.PrefixSelector? then [entries[0].selector.prefix] else []) + Prefixes(entries[1..])
  }

  /** No later prefix extends an earlier one; an earlier one may extend a later one. */
  ghost predicate PrefixesAccepted(prefixes: seq<string>) {
    forall i, j :: 0 <= i < j < |prefixes| ==> !StartsWith(prefixes[j], prefixes[i])
  }

  /** The overlap check of `validate_external_entries`. */
  method ValidatePrefixes(prefixes: seq<string>) returns (ok: bool)
    ensures ok <==> PrefixesAccepted(prefixes)
  {
    for index := 0 to |prefixes|
      invariant forall i, j :: 0 <= i < j < |prefixes| && i < index ==> !StartsWith(prefixes[j], prefixes[i])
    {
      var prefix := prefixes[index];
      var later, earlier := prefixes[index + 1..], prefixes[..index];
      if (exists other :: other in later && StartsWith(other, prefix)) ||
         (exists other :: other in earlier && StartsWith(prefix, other)) {
        if other :| other in later && StartsWith(other, prefix) {
          var k :| 0 <= k < |later| && later[k] == other;
          assert prefixes[index + 1 + k] == other;
        }
        return false;
      }
      forall j | index < j < |prefixes|
        ensures !StartsWith(prefixes[j], prefixes[index])
      {
        assert later[j - index - 1] == prefixes[j];
      }
    }
    return true;
  }

  /** The prefixes keep the order of the entries. */
  lemma {:induction false} PrefixOrder(entries: seq<ExternalEntry>, i: nat, j: nat) returns (a: nat, b: nat)
    requires i < j < |entries|
    requires entries[i].selector.PrefixSelector? && entries[j].selector.PrefixSelector?
    ensures a < b < |Prefixes(entries)|
    ensures Prefixes(entries)[a] == entries[i].selector.prefix && Prefixes(entries)[b] == entries[j].selector.prefix
  {
    var skip := if entries[0].selector.PrefixSelector? then 1 else 0;
    if i == 0 {
      b := PrefixIndex(entries[1..], j - 1);
      a, b := 0, b + 1;
    } else {
      a, b := PrefixOrder(entries[1..], i - 1, j - 1);
      a, b := a + skip, b + skip;
    }
  }

  lemma {:induction false} PrefixIndex(entries: seq<ExternalEntry>, i: nat) returns (a: nat)
    requires i < |entries| && entries[i].selector.PrefixSelector?
    ensures a < |Prefixes(entries)| && Prefixes(entries)[a] == entries[i].selector.prefix
  {
    if i == 0 {
      a := 0;
    } else {
      a := PrefixIndex(entries[1..], i - 1);
      a := a + if entries[0].selector.PrefixSelector? then 1 else 0;
    }
  }

  lemma {:induction false} FirstEntryIndex(path: string, entries: seq<ExternalEntry>) returns (i: nat)
    requires FirstEntry(path, entries).Some?
    ensures i < |entries| && FirstEntry(path, entries) == Some(entries[i]) && Matches(path, entries[i].selector)
    ensures forall j :: 0 <= j < i ==> !Matches(path, entries[j].selector)
  {
    if Matches(path, entries[0].selector) {
      i := 0;
    } else {
      i := FirstEntryIndex(path, entries[1..]);
      i := i + 1;
    }
  }

  /**
   * Prefixes may overlap as long as the longer one comes first. So when the entry applied to
   * a path is a prefix, every other prefix entry that matches the path is strictly shorter.
   */
  lemma FirstMatchIsMostSpecific(path: string, entries: seq<ExternalEntry>, other: ExternalEntry)
    requires PrefixesAccepted(Prefixes(entries))
    requires FirstEntry(path, entries).Some? && FirstEntry(path, entries).value.selector.PrefixSelector?
    requires other in entries && other.selector.PrefixSelector? && Matches(path, other.selector)
    requires other != FirstEntry(path, entries).value
    ensures |other.selector.prefix| < |FirstEntry(path, entries).value.selector.prefix|
  {
    var i := FirstEntryIndex(path, entries);
    var j :| 0 <= j < |entries| && entries[j] == other;
    assert i < j;
    var a, b := PrefixOrder(entries, i, j);
    assert entries[i].selector.prefix <= path && other.selector.prefix <= path;
  }
}
