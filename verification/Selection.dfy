/** scripts/canary_impact.py: how changed paths select tests (`compute_selection`). */
module Selection {
  import opened RepoPaths
  import opened DependencyMap

  /** The two reviewed path lists a run is configured with. */
  datatype Lists = Lists(cantAffect: set<string>, wholeSuite: set<string>)

  datatype Edge = SelfEdge | DependencyEdge | SameDirectoryEdge | DynamicEdge | WholeSuiteEdge

  datatype Reason = Reason(changedPath: string, edge: Edge)

  /** The JSON result: `selected` gives the reasons of each selected node id. */
  datatype Outcome = Outcome(changed: set<string>, wholeSuite: bool, unmapped: set<string>,
                             selected: map<string, set<Reason>>)

  type DepMap = map<string, TestRecord>

  // ---- pure path relations ----

  /** `normalize_rel`. */
  function NormalizeRel(path: string): string {
    DropDotSlash(ForwardSlashes(Strip(path)))
  }

  function ForwardSlashes(s: string): string {
    if s == "" then "" else [if s[0] == '\\' then '/' else s[0]] + ForwardSlashes(s[1..])
  }

  function DropDotSlash(s: string): string {
    if StartsWith(s, "./") then DropDotSlash(s[2..]) else s
  }

  /** `_change_covers`: the change touches `dep`, something below it, or a directory above it. */
  predicate ChangeCovers(changed: string, dep: string) {
    || changed == dep
    || (if EndsWith(dep, "/") then StartsWith(changed, dep)
        else StartsWith(changed, dep + "/") || StartsWith(dep, changed + "/"))
  }

  predicate SamePackageModule(changed: string, dep: string) {
    StartsWith(dep, "benchbox/") && IsPythonPath(dep) && Parent(dep) == Parent(changed)
  }

  predicate IsPythonPath(path: string) {
    EndsWith(path, ".py")
  }

  /** `_same_directory_non_python`. */
  predicate SameDirectory(changed: string, deps: set<string>) {
    StartsWith(changed, "benchbox/") && !IsPythonPath(changed) &&
    exists dep :: dep in deps && SamePackageModule(changed, dep)
  }

  predicate Covered(changed: string, deps: set<string>) {
    exists dep :: dep in deps && ChangeCovers(changed, dep)
  }

  /** `_is_cant_affect`. */
  predicate CantAffect(path: string, list: set<string>) {
    path in list || exists entry :: entry in list && EndsWith(entry, "/") && StartsWith(path, entry)
  }

  /** The file part of a node id: what precedes the first "::". */
  function FileOf(node: string): string {
    if node == "" || StartsWith(node, "::") then "" else [node[0]] + FileOf(node[1..])
  }

  // ---- specification ----

  ghost function ChangedSet(paths: seq<string>): set<string> {
    set p | p in paths && NormalizeRel(p) != "" :: NormalizeRel(p)
  }

  /** Some test refers to the path, is it, or sits beside it. */
  predicate Mapped(path: string, dm: DepMap) {
    exists t :: t in dm && MappedBy(path, t, dm[t].deps)
  }

  predicate MappedBy(path: string, test: string, deps: set<string>) {
    Covered(path, deps) || path == test || StartsWith(path, test + "/") || SameDirectory(path, deps)
  }

  ghost function Unmapped(lists: Lists, changed: set<string>, dm: DepMap): set<string> {
    set p | p in changed && !Mapped(p, dm) && !CantAffect(p, lists.cantAffect)
  }

  ghost function Effective(lists: Lists, changed: set<string>, dm: DepMap): set<string> {
    set p | p in changed && (Mapped(p, dm) || !CantAffect(p, lists.cantAffect))
  }

  ghost predicate RunsWholeSuite(lists: Lists, changed: set<string>, dm: DepMap, fallback: bool) {
    fallback || changed * lists.wholeSuite != {} || Unmapped(lists, changed, dm) != {}
  }

  /** Why the nodes of `test` are selected when there is no whole-suite run. */
  ghost predicate HasReason(lists: Lists, changed: set<string>, dm: DepMap, test: string, reason: Reason) {
    var path := reason.changedPath;
    test in dm &&
    match reason.edge
    case SelfEdge => path == test && test in changed
    case DependencyEdge => path in Effective(lists, changed, dm) && path != test && Covered(path, dm[test].deps)
    case SameDirectoryEdge => path in Effective(lists, changed, dm) && path != test &&
                              !Covered(path, dm[test].deps) && SameDirectory(path, dm[test].deps)
    case DynamicEdge => path in Effective(lists, changed, dm) && dm[test].Dynamic()
    case WholeSuiteEdge => false
  }

  /** A node is selected by a whole-suite run, or because its file has a reason. */
  ghost predicate IsSelected(lists: Lists, changed: set<string>, dm: DepMap, nodes: seq<string>, fallback: bool,
                             node: string) {
    node in nodes &&
    (RunsWholeSuite(lists, changed, dm, fallback) ||
     (FileOf(node) in dm && exists reason :: HasReason(lists, changed, dm, FileOf(node), reason)))
  }

  /** The paths blamed for a whole-suite run: none for a fallback. */
  ghost function Triggers(lists: Lists, changed: set<string>, dm: DepMap, fallback: bool): set<string> {
    if fallback then {}
    else if changed * lists.wholeSuite != {} then changed * lists.wholeSuite
    else Unmapped(lists, changed, dm)
  }

  function WholeSuiteReasons(triggers: set<string>): set<Reason> {
    if triggers == {} then {Reason("", WholeSuiteEdge)} else set t | t in triggers :: Reason(t, WholeSuiteEdge)
  }

  // ---- the code ----

  /** `file_nodes`: the node ids of each file. */
  method GroupNodes(nodes: seq<string>) returns (grouped: map<string, seq<string>>)
    ensures forall f :: f in grouped ==> grouped[f] != []
    ensures forall n :: n in nodes ==> FileOf(n) in grouped && n in grouped[FileOf(n)]
    ensures forall f, n :: f in grouped && n in grouped[f] ==> n in nodes && FileOf(n) == f
  {
    grouped := map[];
    for i := 0 to |nodes|
      invariant forall f :: f in grouped ==> grouped[f] != []
      invariant forall n :: n in nodes[..i] ==> FileOf(n) in grouped && n in grouped[FileOf(n)]
      invariant forall f, n :: f in grouped && n in grouped[f] ==> n in nodes[..i] && FileOf(n) == f
    {
      var file := FileOf(nodes[i]);
      TakeNext(nodes, i);
      grouped := grouped[file := (if file in grouped then grouped[file] else []) + [nodes[i]]];
    }
    TakeAll(nodes);
  }

  /** The loop that sorts changed paths into mapped, ignored and unmapped ones. */
  method Classify(lists: Lists, changed: set<string>, dm: DepMap)
    returns (unmapped: set<string>, ignored: set<string>)
    ensures unmapped == Unmapped(lists, changed, dm)
    ensures changed - ignored == Effective(lists, changed, dm)
  {
    unmapped, ignored := {}, {};
    var rest := changed;
    while rest != {}
      invariant rest <= changed
      invariant unmapped == Unmapped(lists, changed - rest, dm)
      invariant ignored == set p | p in changed - rest && !Mapped(p, dm) && CantAffect(p, lists.cantAffect)
    {
      var path :| path in rest;
      rest := rest - {path};
      if Mapped(path, dm) {
      } else if CantAffect(path, lists.cantAffect) {
        ignored := ignored + {path};
      } else {
        unmapped := unmapped + {path};
      }
    }
  }

  /** The reasons the path loop appends to every node of one test file. */
  method ReasonsFor(lists: Lists, changed: set<string>, effective: set<string>, dm: DepMap, test: string)
    returns (reasons: set<Reason>)
    requires test in dm && effective == Effective(lists, changed, dm)
    ensures forall reason :: reason in reasons <==> HasReason(lists, changed, dm, test, reason)
  {
    reasons := if test in changed then {Reason(test, SelfEdge)} else {};
    var record := dm[test];
    var rest := effective;
    while rest != {}
      invariant rest <= effective
      invariant forall reason :: reason in reasons <==>
                                 HasReason(lists, changed, dm, test, reason) && reason.edge != DynamicEdge &&
                                 (reason.edge == SelfEdge || reason.changedPath !in rest)
    {
      var path :| path in rest;
      rest := rest - {path};
      if path == test {
      } else if Covered(path, record.deps) {
        reasons := reasons + {Reason(path, DependencyEdge)};
      } else if SameDirectory(path, record.deps) {
        reasons := reasons + {Reason(path, SameDirectoryEdge)};
      }
    }
    if record.Dynamic() {
      reasons := reasons + set path | path in effective :: Reason(path, DynamicEdge);
    }
  }

  /** `compute_selection`. */
  method ComputeSelection(lists: Lists, changedPaths: seq<string>, dm: DepMap, nodes: seq<string>, fallback: bool)
    returns (r: Outcome)
    ensures r.changed == ChangedSet(changedPaths)
    ensures r.wholeSuite == RunsWholeSuite(lists, r.changed, dm, fallback)
    ensures forall n :: n in r.selected <==> IsSelected(lists, r.changed, dm, nodes, fallback, n)
    ensures !r.wholeSuite ==> forall n, reason :: n in r.selected ==>
              (reason in r.selected[n] <==> HasReason(lists, r.changed, dm, FileOf(n), reason))
    ensures r.wholeSuite ==> forall n :: n in r.selected ==>
              r.selected[n] == WholeSuiteReasons(Triggers(lists, r.changed, dm, fallback))
    ensures r.unmapped == if fallback || r.changed * lists.wholeSuite != {} then {} else Unmapped(lists, r.changed, dm)
  {
    var changed := set p | p in changedPaths && NormalizeRel(p) != "" :: NormalizeRel(p);
    var fileNodes := GroupNodes(nodes);
    var triggers := if fallback then {} else changed * lists.wholeSuite;
    var wholeSuite := fallback || triggers != {};
    var unmapped, ignored: set<string> := {}, {};
    if !wholeSuite {
      unmapped, ignored := Classify(lists, changed, dm);
      wholeSuite, triggers := unmapped != {}, unmapped;
    }
    var selected: map<string, set<Reason>>;
    if wholeSuite {
      selected := map n | n in nodes :: WholeSuiteReasons(triggers);
    } else {
      selected := SelectByReason(lists, changed, changed - ignored, dm, nodes, fileNodes);
    }
    r := Outcome(changed, wholeSuite, unmapped, selected);
  }

  /** The test loop of `compute_selection`. */
  method SelectByReason(lists: Lists, changed: set<string>, effective: set<string>, dm: DepMap, nodes: seq<string>,
                        fileNodes: map<string, seq<string>>)
    returns (selected: map<string, set<Reason>>)
    requires effective == Effective(lists, changed, dm)
    requires forall n :: n in nodes ==> FileOf(n) in fileNodes && n in fileNodes[FileOf(n)]
    requires forall f, n :: f in fileNodes && n in fileNodes[f] ==> n in nodes && FileOf(n) == f
    ensures forall n :: n in selected <==>
              n in nodes && FileOf(n) in dm && exists reason :: HasReason(lists, changed, dm, FileOf(n), reason)
    ensures forall n, reason :: n in selected ==>
              (reason in selected[n] <==> HasReason(lists, changed, dm, FileOf(n), reason))
  {
    selected := map[];
    var rest := dm.Keys;
    while rest != {}
      invariant rest <= dm.Keys
      invariant forall n :: n in selected <==>
                  n in nodes && FileOf(n) in dm.Keys - rest &&
                  exists reason :: HasReason(lists, changed, dm, FileOf(n), reason)
      invariant forall n, reason :: n in selected ==>
                  (reason in selected[n] <==> HasReason(lists, changed, dm, FileOf(n), reason))
    {
      var test :| test in rest;
      rest := rest - {test};
      var reasons := ReasonsFor(lists, changed, effective, dm, test);
      if test in fileNodes && reasons != {} {
        selected := selected + map n | n in fileNodes[test] :: reasons;
      }
    }
  }
}
