/**
 * What the selector promises end to end: it may over-select, but a test it leaves out
 * cannot see any change. `before` is the tree without the change, `after` the tree the
 * selector analyses.
 */
module SelectorSoundness {
  import opened Wrappers
  import opened RepoPaths
  import opened ImportClosure
  import opened DependencyMap
  import opened Selection

  /** The two trees have the same file at `path`, or none. */
  ghost predicate Agree(before: Tree, after: Tree, path: string) {
    (path in before <==> path in after) && (path in before ==> before[path] == after[path])
  }

  /** `changed` names every path at which the trees differ. */
  ghost predicate Reported(before: Tree, after: Tree, changed: set<string>) {
    forall p :: (p in before || p in after) && !Agree(before, after, p) ==> p in changed
  }

  // ---- no under-selection ----

  /** The changed path touches the test's file or its recorded dependencies. */
  ghost predicate Touches(lists: Lists, changed: set<string>, dm: DepMap, test: string, p: string)
    requires test in dm
  {
    p in changed &&
    (p == test || Covered(p, dm[test].deps) || SameDirectory(p, dm[test].deps) ||
     (dm[test].Dynamic() && p in Effective(lists, changed, dm)))
  }

  /** A node is selected exactly by the changes that touch its test. */
  lemma TouchedIffSelected(lists: Lists, changed: set<string>, dm: DepMap, nodes: seq<string>, node: string)
    requires node in nodes && FileOf(node) in dm
    requires !RunsWholeSuite(lists, changed, dm, false)
    ensures IsSelected(lists, changed, dm, nodes, false, node) <==>
            exists p :: Touches(lists, changed, dm, FileOf(node), p)
  {
    var test := FileOf(node);
    var deps := dm[test].deps;
    if p :| Touches(lists, changed, dm, test, p) {
      assert MappedBy(p, test, deps) ==> p in Effective(lists, changed, dm);
      var edge := if p == test then SelfEdge
                  else if Covered(p, deps) then DependencyEdge
                  else if SameDirectory(p, deps) then SameDirectoryEdge
                  else DynamicEdge;
      assert HasReason(lists, changed, dm, test, Reason(p, edge));
    }
    if reason :| HasReason(lists, changed, dm, test, reason) {
      assert Touches(lists, changed, dm, test, reason.changedPath);
    }
  }

  /** The trees agree on everything covering a path of `deps`, in particular on `deps` itself. */
  ghost predicate SameFootprint(before: Tree, after: Tree, deps: set<string>) {
    forall p :: (p in before || p in after) && Covered(p, deps) ==> Agree(before, after, p)
  }

  /** They agree on the non-Python files beside the package modules among `deps`. */
  ghost predicate SameNeighbours(before: Tree, after: Tree, deps: set<string>) {
    forall p :: (p in before || p in after) && SameDirectory(p, deps) ==> Agree(before, after, p)
  }

  /** A test left out sees the same footprint, and the same files beside it, in both trees. */
  lemma {:induction false} UnselectedFootprint(before: Tree, after: Tree, lists: Lists, changed: set<string>,
                                               dm: DepMap, nodes: seq<string>, node: string)
    requires Reported(before, after, changed)
    requires node in nodes && FileOf(node) in dm
    requires !RunsWholeSuite(lists, changed, dm, false)
    requires !IsSelected(lists, changed, dm, nodes, false, node)
    ensures Agree(before, after, FileOf(node))
    ensures SameFootprint(before, after, dm[FileOf(node)].deps)
    ensures SameNeighbours(before, after, dm[FileOf(node)].deps)
    ensures dm[FileOf(node)].Dynamic() ==> Effective(lists, changed, dm) == {}
  {
    TouchedIffSelected(lists, changed, dm, nodes, node);
    var test := FileOf(node);
    assert forall p :: !Touches(lists, changed, dm, test, p);
    forall p | (p in before || p in after) &&
               (p == test || Covered(p, dm[test].deps) || SameDirectory(p, dm[test].deps))
      ensures Agree(before, after, p)
    {
      assert !Touches(lists, changed, dm, test, p);
    }
    if p :| dm[test].Dynamic() && p in Effective(lists, changed, dm) {
      assert Touches(lists, changed, dm, test, p);
    }
  }

  lemma FootprintAgrees(before: Tree, after: Tree, deps: set<string>)
    requires SameFootprint(before, after, deps)
    ensures forall p :: p in deps ==> Agree(before, after, p)
  {
    forall p | p in deps
      ensures Agree(before, after, p)
    {
      assert ChangeCovers(p, p);
    }
  }

  // ---- is the recorded closure the right one for the old tree as well? ----

  /** Every plugin file, and initialiser, that a conftest names in the old tree is still there. */
  ghost predicate PluginsKept(az: Analyzer, before: Tree, after: Tree, conftest: string)
    requires conftest in before
  {
    match az.readPlugins(before[conftest])
    case PluginError(_) => true
    case Plugins(names) => PluginSeeds(before.Keys, names, conftest) <= after.Keys
  }

  /** The conftest files the old tree loads for a test are still there, with their plugins. */
  ghost predicate ChainKept(az: Analyzer, before: Tree, after: Tree, test: string) {
    forall c :: c in ChainFrom(before.Keys, Parent(test)) ==>
                  c in before && c in after && PluginsKept(az, before, after, c)
  }

  /**
   * The change keeps everything the old tree finds for the test by looking for names: conftest
   * files, their plugins, package initialisers, and the plugins of the shared conftest.
   */
  ghost predicate LookupsKept(az: Analyzer, before: Tree, after: Tree, test: string) {
    && ChainKept(az, before, after, test)
    && ParentInits(before.Keys, test) <= after.Keys
    && (CONFTEST in before ==> PluginsKept(az, before, after, CONFTEST))
  }

  /** A lookup finds the same file when each tree keeps what the other one found. */
  lemma {:induction false} FirstExistingAgrees(a: set<string>, b: set<string>, candidates: seq<string>)
    requires FirstExisting(a, candidates).Some? ==> FirstExisting(a, candidates).value in b
    requires FirstExisting(b, candidates).Some? ==> FirstExisting(b, candidates).value in a
    ensures FirstExisting(a, candidates) == FirstExisting(b, candidates)
  {
    if candidates != [] && candidates[0] !in a && candidates[0] !in b {
      FirstExistingAgrees(a, b, candidates[1..]);
    }
  }

  /** The conftest chain is the same when each tree has the other's chain. */
  lemma {:induction false} ChainAgrees(a: set<string>, b: set<string>, dir: string)
    requires forall c :: c in ChainFrom(a, dir) ==> c in b
    requires forall c :: c in ChainFrom(b, dir) ==> c in a
    ensures ChainFrom(a, dir) == ChainFrom(b, dir)
    decreases |dir|
  {
    assert ConftestIn(a, dir) == ConftestIn(b, dir) by {
      var c := ConftestOf(dir);
      assert c in ConftestIn(a, dir) ==> c in ChainFrom(a, dir);
      assert c in ConftestIn(b, dir) ==> c in ChainFrom(b, dir);
    }
    if dir != "" {
      ChainAgrees(a, b, Parent(dir));
    }
  }

  lemma InitsAgree(a: set<string>, b: set<string>, path: string)
    requires ParentInits(a, path) <= b && ParentInits(b, path) <= a
    ensures ParentInits(a, path) == ParentInits(b, path)
  {
  }

  /** Each tree has every plugin file, and initialiser, that the other one resolves. */
  lemma PluginsAgree(a: set<string>, b: set<string>, names: seq<string>, conftest: string)
    requires PluginSeeds(a, names, conftest) <= b && PluginSeeds(b, names, conftest) <= a
    ensures PluginSeeds(a, names, conftest) == PluginSeeds(b, names, conftest)
    ensures Unresolvable(a, names, conftest) == Unresolvable(b, names, conftest)
  {
    forall n | n in names
      ensures ResolvePlugin(a, n, conftest) == ResolvePlugin(b, n, conftest)
    {
      OnePluginAgrees(a, b, names, n, conftest);
    }
    forall n | n in names && ResolvePlugin(a, n, conftest).Some?
      ensures var f := ResolvePlugin(a, n, conftest).value; WithInits(a, f) == WithInits(b, f)
    {
      var f := ResolvePlugin(a, n, conftest).value;
      assert WithInits(a, f) <= PluginSeeds(a, names, conftest);
      assert WithInits(b, f) <= PluginSeeds(b, names, conftest);
      InitsAgree(a, b, f);
    }
  }

  lemma OnePluginAgrees(a: set<string>, b: set<string>, names: seq<string>, n: string, conftest: string)
    requires PluginSeeds(a, names, conftest) <= b && PluginSeeds(b, names, conftest) <= a
    requires n in names
    ensures ResolvePlugin(a, n, conftest) == ResolvePlugin(b, n, conftest)
  {
    var inA, inB := ResolvePlugin(a, n, conftest), ResolvePlugin(b, n, conftest);
    if inA.Some? {
      assert inA.value in WithInits(a, inA.value);
      assert inA.value in PluginSeeds(a, names, conftest);
    }
    if inB.Some? {
      assert inB.value in WithInits(b, inB.value);
      assert inB.value in PluginSeeds(b, names, conftest);
    }
    FirstExistingAgrees(a, b, PluginCandidates(n, conftest));
  }

  /** What one conftest contributes is the same on both trees. */
  lemma ConftestAgrees(az: Analyzer, before: Tree, after: Tree, c: string)
    requires c in before && Agree(before, after, c)
    requires PluginsKept(az, before, after, c) && PluginsKept(az, after, before, c)
    ensures ConftestSeeds(az, before, c) == ConftestSeeds(az, after, c)
    ensures ConftestKinds(az, before, c) == ConftestKinds(az, after, c)
  {
    match az.readPlugins(before[c]) {
      case PluginError(_) =>
      case Plugins(names) =>
        PluginsAgree(before.Keys, after.Keys, names, c);
    }
  }

  lemma PluginSeedsExist(files: set<string>, names: seq<string>, conftest: string)
    ensures PluginSeeds(files, names, conftest) <= files
  {
  }

  /** A conftest whose seeds are all untouched finds its plugins in the old tree as well. */
  lemma UntouchedPlugins(az: Analyzer, before: Tree, after: Tree, c: string, seeds: set<string>)
    requires c in after && ConftestSeeds(az, after, c) <= seeds
    requires forall p :: p in seeds ==> Agree(before, after, p)
    ensures PluginsKept(az, after, before, c)
  {
    match az.readPlugins(after[c]) {
      case PluginError(_) =>
      case Plugins(names) =>
        PluginSeedsExist(after.Keys, names, c);
    }
  }

  /**
   * When the change keeps the conftest chain of the old tree and its plugins, and leaves the
   * seeds of the new tree alone, a test has the same seeds on both.
   */
  lemma SeedsAgree(az: Analyzer, before: Tree, after: Tree, test: string)
    requires Agree(before, after, test) && ChainKept(az, before, after, test)
    requires forall p :: p in TestSeeds(az, after, test) ==> Agree(before, after, p)
    ensures ChainFrom(before.Keys, Parent(test)) == ChainFrom(after.Keys, Parent(test))
    ensures TestSeeds(az, before, test) == TestSeeds(az, after, test)
    ensures var chain := ChainFrom(after.Keys, Parent(test));
            && (forall c :: c in chain ==> c in before && c in after)
            && ChainKinds(az, before, chain) == ChainKinds(az, after, chain)
  {
    var dir := Parent(test);
    ChainExists(before.Keys, dir);
    ChainExists(after.Keys, dir);
    forall c | c in ChainFrom(after.Keys, dir)
      ensures c in before && Agree(before, after, c) && ConftestSeeds(az, after, c) <= TestSeeds(az, after, test)
    {
      assert c in ConftestSeeds(az, after, c);
    }
    ChainAgrees(before.Keys, after.Keys, dir);
    forall c | c in ChainFrom(after.Keys, dir)
      ensures ConftestSeeds(az, before, c) == ConftestSeeds(az, after, c)
      ensures ConftestKinds(az, before, c) == ConftestKinds(az, after, c)
    {
      UntouchedPlugins(az, before, after, c, TestSeeds(az, after, test));
      ConftestAgrees(az, before, after, c);
    }
  }

  /** The shared fixtures are the same when the plugins are kept and the new fixtures untouched. */
  lemma SharedAgrees(az: Analyzer, before: Tree, after: Tree)
    requires Shared(az, before).Ok? && Shared(az, after).Ok?
    requires PluginsKept(az, before, after, CONFTEST)
    requires forall p :: p in Shared(az, after).value ==> Agree(before, after, p)
    ensures Shared(az, before) == Shared(az, after)
  {
    var names := az.readPlugins(after[CONFTEST]).names;
    var seeds := SharedSeeds(after.Keys, names);
    ClosureIsLeast(az, after, seeds);
    assert CONFTEST in seeds;
    PluginSeedsExist(after.Keys, names, CONFTEST);
    PluginsAgree(before.Keys, after.Keys, names, CONFTEST);
    ClosureAgrees(az, before, after, seeds);
  }

  /** What is looked up by name is among the recorded dependencies. */
  lemma LookupsAreDeps(az: Analyzer, tree: Tree, test: string)
    requires Shared(az, tree).Ok?
    ensures var deps := TestDeps(az, tree, Shared(az, tree).value, test);
            && (forall c :: c in ChainFrom(tree.Keys, Parent(test)) ==>
                              c in tree && c in deps && ConftestSeeds(az, tree, c) <= deps)
            && ParentInits(tree.Keys, test) <= deps
            && SharedSeeds(tree.Keys, az.readPlugins(tree[CONFTEST]).names) <= deps
  {
    ChainExists(tree.Keys, Parent(test));
    ClosureIsLeast(az, tree, TestSeeds(az, tree, test));
    ClosureIsLeast(az, tree, SharedSeeds(tree.Keys, az.readPlugins(tree[CONFTEST]).names));
    forall c | c in ChainFrom(tree.Keys, Parent(test))
      ensures c in ConftestSeeds(az, tree, c) && ConftestSeeds(az, tree, c) <= TestSeeds(az, tree, test)
    {
    }
  }

  /** If no recorded dependency is deleted, all lookups are kept. */
  lemma NothingLookedUpDeleted(az: Analyzer, before: Tree, after: Tree, test: string)
    requires Shared(az, before).Ok?
    requires forall p :: p in TestDeps(az, before, Shared(az, before).value, test) && p in before ==> p in after
    ensures LookupsKept(az, before, after, test)
  {
    LookupsAreDeps(az, before, test);
    forall c | c in ChainFrom(before.Keys, Parent(test))
      ensures PluginsKept(az, before, after, c)
    {
      match az.readPlugins(before[c]) {
        case PluginError(_) =>
        case Plugins(names) =>
          PluginSeedsExist(before.Keys, names, c);
      }
    }
    PluginSeedsExist(before.Keys, az.readPlugins(before[CONFTEST]).names, CONFTEST);
  }

  /** The old tree's map can be built, and records the same for the test. */
  ghost predicate SameRecord(az: Analyzer, before: Tree, after: Tree, test: string)
    requires Shared(az, after).Ok?
  {
    Shared(az, before).Ok? &&
    RecordOf(az, before, Shared(az, before).value, test) == RecordOf(az, after, Shared(az, after).value, test)
  }

  /**
   * The old tree can be mapped and records for an unselected test what the new tree does, if
   * and only if the change keeps what the old tree looks up by name. (A deleted conftest,
   * plugin or initialiser is not seen in the new tree, so it cannot select the tests that
   * loaded it.)
   */
  lemma RecordUnchangedIff(az: Analyzer, before: Tree, after: Tree, test: string)
    requires Shared(az, after).Ok?
    requires Agree(before, after, test)
    requires SameFootprint(before, after, TestDeps(az, after, Shared(az, after).value, test))
    ensures SameRecord(az, before, after, test) <==> LookupsKept(az, before, after, test)
  {
    var shared := Shared(az, after).value;
    FootprintAgrees(before, after, TestDeps(az, after, shared, test));
    DepsContain(az, after, shared, test);
    if LookupsKept(az, before, after, test) {
      SharedStillOk(az, before, after);
      RecordUnchanged(az, before, after, test);
    } else if SameRecord(az, before, after, test) {
      NothingLookedUpDeleted(az, before, after, test);
    }
  }

  lemma RecordUnchanged(az: Analyzer, before: Tree, after: Tree, test: string)
    requires Shared(az, before).Ok? && Shared(az, after).Ok?
    requires Agree(before, after, test) && LookupsKept(az, before, after, test)
    requires forall p :: p in TestDeps(az, after, Shared(az, after).value, test) ==> Agree(before, after, p)
    ensures RecordOf(az, before, Shared(az, before).value, test) == RecordOf(az, after, Shared(az, after).value, test)
  {
    var shared := Shared(az, after).value;
    DepsContain(az, after, shared, test);
    SharedAgrees(az, before, after);
    SeedsAgree(az, before, after, test);
    ClosureUnchanged(az, before, after, test);
    KindsUnchanged(az, before, after, shared, test);
    InitsUnchanged(before, after, test);
  }

  lemma DepsContain(az: Analyzer, tree: Tree, shared: set<string>, test: string)
    ensures var deps := TestDeps(az, tree, shared, test);
            && TestSeeds(az, tree, test) <= Closure(az, tree, TestSeeds(az, tree, test)) <= deps
            && shared <= deps && ParentInits(tree.Keys, test) <= deps
  {
    ClosureIsLeast(az, tree, TestSeeds(az, tree, test));
  }

  lemma InitsUnchanged(before: Tree, after: Tree, test: string)
    requires ParentInits(before.Keys, test) <= after.Keys
    requires forall p :: p in ParentInits(after.Keys, test) ==> Agree(before, after, p)
    ensures ParentInits(before.Keys, test) == ParentInits(after.Keys, test)
  {
    InitsAgree(before.Keys, after.Keys, test);
  }

  lemma ClosureUnchanged(az: Analyzer, before: Tree, after: Tree, test: string)
    requires TestSeeds(az, before, test) == TestSeeds(az, after, test)
    requires forall p :: p in Closure(az, after, TestSeeds(az, after, test)) ==> Agree(before, after, p)
    ensures Closure(az, before, TestSeeds(az, before, test)) == Closure(az, after, TestSeeds(az, after, test))
  {
    ClosureAgrees(az, before, after, TestSeeds(az, after, test));
  }

  lemma KindsUnchanged(az: Analyzer, before: Tree, after: Tree, shared: set<string>, test: string)
    requires Agree(before, after, test)
    requires var chain := ChainFrom(after.Keys, Parent(test));
             && ChainFrom(before.Keys, Parent(test)) == chain
             && (forall c :: c in chain ==> c in before && c in after)
             && ChainKinds(az, before, chain) == ChainKinds(az, after, chain)
    requires var closure := Closure(az, after, TestSeeds(az, after, test));
             Closure(az, before, TestSeeds(az, before, test)) == closure &&
             forall p :: p in closure ==> Agree(before, after, p)
    ensures TestKinds(az, before, shared, test) == TestKinds(az, after, shared, test)
  {
    var closure := Closure(az, after, TestSeeds(az, after, test));
    var handled := (set c | c in ChainFrom(after.Keys, Parent(test))) + {test} + shared;
    assert LibraryKinds(az, before, closure, handled) == LibraryKinds(az, after, closure, handled);
  }

  lemma {:induction false} NoneUnresolvable(files: set<string>, names: seq<string>, conftest: string)
    ensures FirstUnresolvable(files, names, conftest).None? <==> Unresolvable(files, names, conftest) == {}
  {
    if names != [] {
      NoneUnresolvable(files, names[1..], conftest);
      if ResolvePlugin(files, names[0], conftest).None? {
        assert ChainPluginUnresolvable(conftest, names[0]) in Unresolvable(files, names, conftest);
      } else if Unresolvable(files, names[1..], conftest) != {} {
        var k :| k in Unresolvable(files, names[1..], conftest);
        assert k in Unresolvable(files, names, conftest);
      }
    }
  }

  /** A change that keeps the shared plugins cannot have repaired the old tree's fixtures. */
  lemma SharedStillOk(az: Analyzer, before: Tree, after: Tree)
    requires Shared(az, after).Ok?
    requires CONFTEST in before ==> PluginsKept(az, before, after, CONFTEST)
    requires forall p :: p in Shared(az, after).value ==> Agree(before, after, p)
    ensures Shared(az, before).Ok?
  {
    var names := az.readPlugins(after[CONFTEST]).names;
    var seeds := SharedSeeds(after.Keys, names);
    ClosureIsLeast(az, after, seeds);
    assert CONFTEST in seeds;
    PluginSeedsExist(after.Keys, names, CONFTEST);
    PluginsAgree(before.Keys, after.Keys, names, CONFTEST);
    NoneUnresolvable(before.Keys, names, CONFTEST);
    NoneUnresolvable(after.Keys, names, CONFTEST);
    assert DynamicSites(az, before, seeds) == DynamicSites(az, after, seeds);
  }

  // ---- the end-to-end statements ----

  /** One selector run on `after`, without a whole-suite fallback, that leaves `node` out. */
  ghost predicate LeftOut(az: Analyzer, before: Tree, after: Tree, lists: Lists, changed: set<string>,
                          tests: seq<string>, nodes: seq<string>, node: string) {
    && Shared(az, after).Ok?
    && Reported(before, after, changed)
    && node in nodes && FileOf(node) in tests
    && var dm := RecordMap(az, after, Shared(az, after).value, tests);
       !RunsWholeSuite(lists, changed, dm, false) && !IsSelected(lists, changed, dm, nodes, false, node)
  }

  /**
   * Soundness: the test file, everything its recorded dependencies cover and the files beside
   * its package modules are untouched; and the old tree can be mapped, with the same record
   * for the test, exactly when the change keeps what the old tree looks up by name.
   */
  lemma NoSilentUnderSelection(az: Analyzer, before: Tree, after: Tree, lists: Lists, changed: set<string>,
                               tests: seq<string>, nodes: seq<string>, node: string)
    requires LeftOut(az, before, after, lists, changed, tests, nodes, node)
    ensures var test := FileOf(node); var deps := TestDeps(az, after, Shared(az, after).value, test);
            && Agree(before, after, test)
            && SameFootprint(before, after, deps) && SameNeighbours(before, after, deps)
            && (SameRecord(az, before, after, test) <==> LookupsKept(az, before, after, test))
  {
    var dm := RecordMap(az, after, Shared(az, after).value, tests);
    UnselectedFootprint(before, after, lists, changed, dm, nodes, node);
    RecordUnchangedIff(az, before, after, FileOf(node));
  }

  /** When the change deletes no file at all, the old tree gives the test the same record. */
  lemma NoDeletionNoUnderSelection(az: Analyzer, before: Tree, after: Tree, lists: Lists, changed: set<string>,
                                   tests: seq<string>, nodes: seq<string>, node: string)
    requires LeftOut(az, before, after, lists, changed, tests, nodes, node)
    requires before.Keys <= after.Keys
    ensures SameRecord(az, before, after, FileOf(node))
  {
    NoSilentUnderSelection(az, before, after, lists, changed, tests, nodes, node);
    NoDeletionKeepsLookups(az, before, after, FileOf(node));
  }

  lemma NoDeletionKeepsLookups(az: Analyzer, before: Tree, after: Tree, test: string)
    requires before.Keys <= after.Keys
    ensures LookupsKept(az, before, after, test)
  {
    ChainExists(before.Keys, Parent(test));
    forall c | c in before
      ensures PluginsKept(az, before, after, c)
    {
      match az.readPlugins(before[c]) {
        case PluginError(_) =>
        case Plugins(names) =>
          PluginSeedsExist(before.Keys, names, c);
      }
    }
  }

  /** The outcome of a test that reads nothing but its file and its footprint is unchanged. */
  lemma OutcomeUnchanged<T>(az: Analyzer, before: Tree, after: Tree, lists: Lists, changed: set<string>,
                            tests: seq<string>, nodes: seq<string>, node: string, run: Tree -> T)
    requires LeftOut(az, before, after, lists, changed, tests, nodes, node)
    requires var deps := TestDeps(az, after, Shared(az, after).value, FileOf(node));
             forall a: Tree, b: Tree | Agree(a, b, FileOf(node)) && SameFootprint(a, b, deps) :: run(a) == run(b)
    ensures run(before) == run(after)
  {
    NoSilentUnderSelection(az, before, after, lists, changed, tests, nodes, node);
  }

  lemma {:induction false} FileOfPlain(node: string)
    requires ':' !in node
    ensures FileOf(node) == node
  {
    if node != "" {
      FileOfPlain(node[1..]);
    }
  }

  lemma EmptyClosure(az: Analyzer, tree: Tree)
    ensures Closure(az, tree, {}) == {}
  {
    assert IsClosed(az, tree, {});
    ClosureIsLeast(az, tree, {});
  }

  /** An analysis under which the file text is the list of dependencies, one path or none. */
  ghost function OnePath(): Analyzer {
    Analyzer((p, text) => FileDeps(if text == "" then {} else {text}, {}), text => Plugins([]))
  }

  /** `loader` is an empty test, `reader` one that only names the path `conftest`. */
  ghost function TwoTests(loader: string, reader: string, conftest: string): Tree {
    map[CONFTEST := "", loader := "", reader := conftest]
  }

  /** A run that leaves a node out although the change deletes a file its old chain loaded. */
  ghost predicate MissesADeletion(az: Analyzer, before: Tree, after: Tree, lists: Lists, changed: set<string>,
                                  tests: seq<string>, node: string) {
    && LeftOut(az, before, after, lists, changed, tests, tests, node)
    && Shared(az, before).Ok?
    && !LookupsKept(az, before, after, FileOf(node))
  }

  /** The file is neither a conftest nor an initialiser. */
  ghost predicate NoFixture(path: string) {
    !EndsWith(path, "conftest.py") && !EndsWith(path, "__init__.py")
  }

  /** Two tests in a directory with its own conftest; neither is a conftest or an initialiser. */
  ghost predicate Scenario(dir: string, loader: string, reader: string, c: string) {
    && FileOf(loader) == loader && Parent(loader) == dir && ConftestOf(dir) == c && c != ""
    && loader != reader && c != CONFTEST
    && NoFixture(loader) && NoFixture(reader)
    && !EndsWith(CONFTEST, "__init__.py") && !StartsWith(CONFTEST, "benchbox/")
    && !ChangeCovers(c, CONFTEST)
  }

  /**
   * Deletions are the exception. Two tests sit beside a conftest: `test_x.py` is a test that
   * only uses it, `test_y.py` also names its path. Deleting the conftest selects `test_y.py` alone.
   */
  lemma DeletedConftestIsMissed()
    ensures var x, y, c := Child("tests/a", "test_x.py"), Child("tests/a", "test_y.py"), ConftestOf("tests/a");
            Scenario("tests/a", x, y, c) &&
            MissesADeletion(OnePath(), TwoTests(x, y, c)[c := ""], TwoTests(x, y, c), Lists({}, {}), {c}, [x, y], x)
  {
    ScenarioHolds();
    MissedDeletion("tests/a", Child("tests/a", "test_x.py"), Child("tests/a", "test_y.py"), ConftestOf("tests/a"));
  }

  /** Paths that differ at some place are apart. */
  lemma Apart(a: string, b: string, i: nat)
    requires i < |a| && i < |b| && a[i] != b[i]
    ensures a != b && !StartsWith(a, b + "/") && !StartsWith(b, a + "/")
  {
    assert (a + "/")[i] == a[i] && (b + "/")[i] == b[i];
  }

  lemma OtherEnd(s: string, suffix: string, i: nat)
    requires i < |suffix| <= |s| && s[|s| - |suffix| + i] != suffix[i]
    ensures !EndsWith(s, suffix)
  {
    assert s[|s| - |suffix|..][i] == s[|s| - |suffix| + i];
  }

  /** A test file beside a conftest. */
  lemma TestFile(name: string)
    requires name == "test_x.py" || name == "test_y.py"
    ensures var p := Child("tests/a", name);
            && FileOf(p) == p && Parent(p) == "tests/a"
            && NoFixture(p)
  {
    var p := Child("tests/a", name);
    assert ':' !in "tests/a" && ':' !in name && '/' !in name;
    FileOfPlain(p);
    ParentOfChild("tests/a", name);
    assert p[6] == 'a' && |p| == 17;
    OtherEnd(p, "conftest.py", 0);
    OtherEnd(p, "__init__.py", 0);
  }

  lemma SharedConftestApart()
    ensures var c := ConftestOf("tests/a");
            c != CONFTEST && c != "" && !ChangeCovers(c, CONFTEST)
    ensures !EndsWith(CONFTEST, "__init__.py") && !StartsWith(CONFTEST, "benchbox/")
  {
    assert |CONFTEST| == 17 && CONFTEST[6] == 'c' && CONFTEST[0] == 't';
    assert ConftestOf("tests/a")[6] == 'a';
    Apart(ConftestOf("tests/a"), CONFTEST, 6);
    OtherEnd(CONFTEST, "__init__.py", 0);
  }

  lemma ChildrenDiffer(dir: string, a: string, b: string)
    requires a != b
    ensures Child(dir, a) != Child(dir, b)
  {
    if dir != "" {
      assert Child(dir, a)[|dir| + 1..] == a && Child(dir, b)[|dir| + 1..] == b;
    }
  }

  lemma TestsDiffer()
    ensures Child("tests/a", "test_x.py") != Child("tests/a", "test_y.py")
  {
    assert "test_x.py"[5] != "test_y.py"[5];
    ChildrenDiffer("tests/a", "test_x.py", "test_y.py");
  }

  lemma ScenarioHolds()
    ensures Scenario("tests/a", Child("tests/a", "test_x.py"), Child("tests/a", "test_y.py"), ConftestOf("tests/a"))
  {
    TestFile("test_x.py");
    TestFile("test_y.py");
    SharedConftestApart();
    TestsDiffer();
    ScenarioFrom("tests/a", Child("tests/a", "test_x.py"), Child("tests/a", "test_y.py"), ConftestOf("tests/a"));
  }

  lemma ScenarioFrom(dir: string, loader: string, reader: string, c: string)
    requires FileOf(loader) == loader && Parent(loader) == dir && ConftestOf(dir) == c && c != ""
    requires loader != reader && c != CONFTEST && NoFixture(loader) && NoFixture(reader)
    requires !EndsWith(CONFTEST, "__init__.py") && !StartsWith(CONFTEST, "benchbox/") && !ChangeCovers(c, CONFTEST)
    ensures Scenario(dir, loader, reader, c)
  {
  }

  lemma MissedDeletion(dir: string, loader: string, reader: string, c: string)
    requires Scenario(dir, loader, reader, c)
    ensures var after := TwoTests(loader, reader, c);
            MissesADeletion(OnePath(), after[c := ""], after, Lists({}, {}), {c}, [loader, reader], loader)
  {
    var after := TwoTests(loader, reader, c);
    OldFixtures(dir, loader, reader, c);
    MissedLeftOut(dir, loader, reader, c);
    DeletedLookup(after[c := ""], after, dir, loader, c);
    MissesFrom(after[c := ""], after, {c}, [loader, reader], loader);
  }

  lemma ConftestEnds()
    ensures EndsWith(CONFTEST, "conftest.py")
  {
    assert CONFTEST == "tests/" + "conftest.py";
  }

  /** The files of a scenario are four different ones. */
  lemma FilesDiffer(dir: string, loader: string, reader: string, c: string)
    requires Scenario(dir, loader, reader, c)
    ensures c != loader && c != reader && c != CONFTEST && loader != CONFTEST && reader != CONFTEST
  {
    ChildEnds(dir, "conftest.py");
    ConftestEnds();
  }

  lemma OldTree(loader: string, reader: string, c: string)
    requires c != loader && c != reader && c != CONFTEST && reader != CONFTEST
    ensures c !in TwoTests(loader, reader, c)
    ensures var tree := TwoTests(loader, reader, c)[c := ""]; CONFTEST in tree && tree[CONFTEST] == ""
  {
  }

  lemma OldFixtures(dir: string, loader: string, reader: string, c: string)
    requires Scenario(dir, loader, reader, c)
    ensures c !in TwoTests(loader, reader, c) && Shared(OnePath(), TwoTests(loader, reader, c)[c := ""]).Ok?
  {
    FilesDiffer(dir, loader, reader, c);
    OldTree(loader, reader, c);
    EmptyFixtures(TwoTests(loader, reader, c)[c := ""]);
  }

  lemma EmptyFixtures(tree: Tree)
    requires CONFTEST in tree && tree[CONFTEST] == ""
    ensures Shared(OnePath(), tree) == Ok({CONFTEST})
  {
    FixturesOnly(OnePath(), tree);
  }

  lemma MissesFrom(before: Tree, after: Tree, changed: set<string>, tests: seq<string>, node: string)
    requires FileOf(node) == node
    requires LeftOut(OnePath(), before, after, Lists({}, {}), changed, tests, tests, node)
    requires Shared(OnePath(), before).Ok? && !LookupsKept(OnePath(), before, after, node)
    ensures MissesADeletion(OnePath(), before, after, Lists({}, {}), changed, tests, node)
  {
  }

  /** A conftest that only the old tree has is a lookup that is not kept. */
  lemma DeletedLookup(before: Tree, after: Tree, dir: string, loader: string, c: string)
    requires Parent(loader) == dir && ConftestOf(dir) == c && c != CONFTEST && c in before && c !in after
    ensures !LookupsKept(OnePath(), before, after, loader)
  {
    assert Ancestors(dir)[0] == dir;
    ChainIs(before.Keys, dir, c);
  }

  lemma MissedLeftOut(dir: string, loader: string, reader: string, c: string)
    requires Scenario(dir, loader, reader, c)
    ensures var after := TwoTests(loader, reader, c); var tests := [loader, reader];
            LeftOut(OnePath(), after[c := ""], after, Lists({}, {}), {c}, tests, tests, loader)
  {
    var after, tests := TwoTests(loader, reader, c), [loader, reader];
    FixturesOnly(OnePath(), after);
    assert Reported(after[c := ""], after, {c});
    assert tests[0] == loader;
    ScenarioSelects(dir, loader, reader, c);
  }

  lemma MapEntry(az: Analyzer, tree: Tree, shared: set<string>, tests: seq<string>, test: string)
    requires test in tests
    ensures test in RecordMap(az, tree, shared, tests)
    ensures RecordMap(az, tree, shared, tests)[test] == RecordOf(az, tree, shared, test)
  {
  }

  lemma ScenarioSelects(dir: string, loader: string, reader: string, c: string)
    requires Scenario(dir, loader, reader, c)
    ensures var dm := RecordMap(OnePath(), TwoTests(loader, reader, c), {CONFTEST}, [loader, reader]);
            && !RunsWholeSuite(Lists({}, {}), {c}, dm, false)
            && !IsSelected(Lists({}, {}), {c}, dm, [loader, reader], false, loader)
  {
    var tests := [loader, reader];
    var dm := RecordMap(OnePath(), TwoTests(loader, reader, c), {CONFTEST}, tests);
    assert tests[0] == loader && tests[1] == reader;
    MapEntry(OnePath(), TwoTests(loader, reader, c), {CONFTEST}, tests, loader);
    MapEntry(OnePath(), TwoTests(loader, reader, c), {CONFTEST}, tests, reader);
    LoaderRecord(dir, loader, reader, c);
    ReaderRecord(dir, loader, reader, c);
    ChildEnds(dir, "conftest.py");
    OnlyTheReader(dm, dir, loader, reader, c);
  }

  lemma OnlyTheReader(dm: DepMap, dir: string, loader: string, reader: string, c: string)
    requires Scenario(dir, loader, reader, c) && c != loader
    requires loader in dm && dm[loader] == TestRecord({CONFTEST}, {})
    requires reader in dm && Covered(c, dm[reader].deps)
    ensures !RunsWholeSuite(Lists({}, {}), {c}, dm, false)
    ensures !IsSelected(Lists({}, {}), {c}, dm, [loader, reader], false, loader)
  {
    assert MappedBy(c, reader, dm[reader].deps);
    assert Unmapped(Lists({}, {}), {c}, dm) == {};
    assert [loader, reader][0] == loader;
    assert !Covered(c, dm[loader].deps);
    TouchedIffSelected(Lists({}, {}), {c}, dm, [loader, reader], loader);
  }

  lemma {:induction false} NoConftests(files: set<string>, dir: string)
    requires forall f :: f in files && EndsWith(f, "conftest.py") ==> f == CONFTEST
    ensures ChainFrom(files, dir) == []
    decreases |dir|
  {
    ChildEnds(dir, "conftest.py");
    if dir != "" {
      NoConftests(files, Parent(dir));
    }
  }

  lemma NoInits(files: set<string>, path: string)
    requires forall f :: f in files ==> !EndsWith(f, "__init__.py")
    ensures ParentInits(files, path) == {}
  {
    forall d
      ensures Child(d, "__init__.py") !in files
    {
      ChildEnds(d, "__init__.py");
    }
  }

  /** The chain of the new tree is empty: it has no conftest but the shared one. */
  lemma NoChain(dir: string, loader: string, reader: string, c: string)
    requires Scenario(dir, loader, reader, c)
    ensures ChainFrom(TwoTests(loader, reader, c).Keys, dir) == []
    ensures ParentInits(TwoTests(loader, reader, c).Keys, loader) == {}
  {
    var files := TwoTests(loader, reader, c).Keys;
    assert files == {CONFTEST, loader, reader};
    NoConftests(files, dir);
    NoInits(files, loader);
  }

  lemma LoaderRecord(dir: string, loader: string, reader: string, c: string)
    requires Scenario(dir, loader, reader, c)
    ensures RecordOf(OnePath(), TwoTests(loader, reader, c), {CONFTEST}, loader) == TestRecord({CONFTEST}, {})
  {
    var az, after := OnePath(), TwoTests(loader, reader, c);
    NoChain(dir, loader, reader, c);
    assert TestSeeds(az, after, loader) == {};
    EmptyClosure(az, after);
    assert TestDeps(az, after, {CONFTEST}, loader) == {CONFTEST};
    assert TestKinds(az, after, {CONFTEST}, loader) == {};
  }

  lemma ReaderRecord(dir: string, loader: string, reader: string, c: string)
    requires Scenario(dir, loader, reader, c)
    ensures var after := TwoTests(loader, reader, c);
            Covered(c, TestDeps(OnePath(), after, {CONFTEST}, reader))
  {
    var az, after := OnePath(), TwoTests(loader, reader, c);
    ClosureIsLeast(az, after, TestSeeds(az, after, reader));
    assert c in TestSeeds(az, after, reader);
    assert ChangeCovers(c, c);
  }

  /** A tree whose shared conftest is empty has just that file as fixtures. */
  lemma FixturesOnly(az: Analyzer, tree: Tree)
    requires CONFTEST in tree && az.readPlugins(tree[CONFTEST]) == Plugins([])
    requires Analyze(az, tree, CONFTEST) == FileDeps({}, {})
    ensures Shared(az, tree) == Ok({CONFTEST})
  {
    assert SharedSeeds(tree.Keys, []) == {CONFTEST};
    assert IsClosed(az, tree, {CONFTEST});
    ClosureIsLeast(az, tree, {CONFTEST});
  }

  // ---- selection is additive in the changed paths ----

  lemma EffectiveAdds(lists: Lists, a: set<string>, b: set<string>, dm: DepMap)
    ensures Effective(lists, a + b, dm) == Effective(lists, a, dm) + Effective(lists, b, dm)
    ensures Unmapped(lists, a + b, dm) == Unmapped(lists, a, dm) + Unmapped(lists, b, dm)
    ensures RunsWholeSuite(lists, a + b, dm, false) <==>
            RunsWholeSuite(lists, a, dm, false) || RunsWholeSuite(lists, b, dm, false)
  {
    assert (a + b) * lists.wholeSuite == a * lists.wholeSuite + b * lists.wholeSuite;
  }

  /** The union of two change sets selects exactly what the two select separately. */
  lemma SelectionIsAdditive(lists: Lists, a: set<string>, b: set<string>, dm: DepMap, nodes: seq<string>,
                            fallback: bool, node: string)
    ensures IsSelected(lists, a + b, dm, nodes, fallback, node) <==>
            IsSelected(lists, a, dm, nodes, fallback, node) || IsSelected(lists, b, dm, nodes, fallback, node)
  {
    EffectiveAdds(lists, a, b, dm);
    forall reason
      ensures HasReason(lists, a + b, dm, FileOf(node), reason) <==>
              HasReason(lists, a, dm, FileOf(node), reason) || HasReason(lists, b, dm, FileOf(node), reason)
    {
    }
  }

  /** Selection is monotone: reporting more changed paths never deselects a node. */
  lemma SelectionIsMonotone(lists: Lists, a: set<string>, b: set<string>, dm: DepMap, nodes: seq<string>,
                            fallback: bool, node: string)
    requires a <= b && IsSelected(lists, a, dm, nodes, fallback, node)
    ensures IsSelected(lists, b, dm, nodes, fallback, node)
  {
    SelectionIsAdditive(lists, a, b, dm, nodes, fallback, node);
    assert a + b == b;
  }

  /** The larger map has every test of the smaller one, with no fewer dependencies and kinds. */
  ghost predicate Grows(small: DepMap, large: DepMap) {
    forall t :: t in small ==> t in large && small[t].deps <= large[t].deps && small[t].kinds <= large[t].kinds
  }

  lemma CoveredGrows(p: string, a: set<string>, b: set<string>)
    requires a <= b
    ensures Covered(p, a) ==> Covered(p, b)
    ensures SameDirectory(p, a) ==> SameDirectory(p, b)
  {
  }

  lemma MappedGrows(p: string, small: DepMap, large: DepMap)
    requires Grows(small, large)
    ensures Mapped(p, small) ==> Mapped(p, large)
  {
    if t :| t in small && MappedBy(p, t, small[t].deps) {
      CoveredGrows(p, small[t].deps, large[t].deps);
      assert MappedBy(p, t, large[t].deps);
    }
  }

  /** Whatever touches a test under a map touches it under a larger one. */
  lemma TouchesGrows(lists: Lists, changed: set<string>, small: DepMap, large: DepMap, test: string, p: string)
    requires Grows(small, large) && test in small && Touches(lists, changed, small, test, p)
    ensures Touches(lists, changed, large, test, p)
  {
    CoveredGrows(p, small[test].deps, large[test].deps);
    MappedGrows(p, small, large);
  }

  /** A whole-suite run is only ever turned off by mapping every path that had no test. */
  lemma WholeSuiteShrinks(lists: Lists, changed: set<string>, small: DepMap, large: DepMap)
    requires Grows(small, large)
    ensures Unmapped(lists, changed, large) <= Unmapped(lists, changed, small)
    ensures RunsWholeSuite(lists, changed, large, false) ==> RunsWholeSuite(lists, changed, small, false)
  {
    forall p | p in Unmapped(lists, changed, large)
      ensures p in Unmapped(lists, changed, small)
    {
      MappedGrows(p, small, large);
    }
  }

  /** A node name that belongs to no test of the map. */
  lemma UnknownNode(dm: DepMap) returns (node: string)
    ensures FileOf(node) !in dm
  {
    var n := LongestKey(dm.Keys);
    node := seq(n + 1, i => 'x');
    FileOfPlain(node);
  }

  lemma LongestKey(keys: set<string>) returns (n: nat)
    ensures forall k :: k in keys ==> |k| <= n
  {
    if keys == {} {
      n := 0;
    } else {
      var k :| k in keys;
      n := LongestKey(keys - {k});
      n := if |k| > n then |k| else n;
    }
  }

  /**
   * A larger map keeps every node selected, whatever the nodes are, if and only if it does not
   * turn a whole-suite run off.
   */
  lemma LargerMapKeepsSelectionIff(lists: Lists, changed: set<string>, small: DepMap, large: DepMap)
    requires Grows(small, large)
    ensures (RunsWholeSuite(lists, changed, small, false) ==> RunsWholeSuite(lists, changed, large, false)) <==>
            forall nodes, node | IsSelected(lists, changed, small, nodes, false, node) ::
              IsSelected(lists, changed, large, nodes, false, node)
  {
    if RunsWholeSuite(lists, changed, small, false) ==> RunsWholeSuite(lists, changed, large, false) {
      forall nodes, node | IsSelected(lists, changed, small, nodes, false, node)
        ensures IsSelected(lists, changed, large, nodes, false, node)
      {
        StaysSelected(lists, changed, small, large, nodes, node);
      }
    } else {
      var node := UnknownNode(large);
      assert node in [node];
      assert IsSelected(lists, changed, small, [node], false, node);
      assert !IsSelected(lists, changed, large, [node], false, node);
    }
  }

  lemma StaysSelected(lists: Lists, changed: set<string>, small: DepMap, large: DepMap, nodes: seq<string>,
                      node: string)
    requires Grows(small, large) && IsSelected(lists, changed, small, nodes, false, node)
    requires RunsWholeSuite(lists, changed, small, false) ==> RunsWholeSuite(lists, changed, large, false)
    ensures IsSelected(lists, changed, large, nodes, false, node)
  {
    WholeSuiteShrinks(lists, changed, small, large);
    if !RunsWholeSuite(lists, changed, large, false) {
      TouchedIffSelected(lists, changed, small, nodes, node);
      TouchedIffSelected(lists, changed, large, nodes, node);
      var p :| Touches(lists, changed, small, FileOf(node), p);
      TouchesGrows(lists, changed, small, large, FileOf(node), p);
    }
  }

  /**
   * For the nodes of mapped test files the same holds with one more way out: when the whole-suite
   * run is turned off, each test of the smaller map must be touched by some change.
   */
  lemma LargerMapKeepsMappedIff(lists: Lists, changed: set<string>, small: DepMap, large: DepMap)
    requires Grows(small, large) && forall t :: t in small ==> FileOf(t) == t
    ensures (RunsWholeSuite(lists, changed, small, false) && !RunsWholeSuite(lists, changed, large, false) ==>
               forall t :: t in small ==> exists p :: Touches(lists, changed, large, t, p)) <==>
            forall nodes, node | FileOf(node) in small && IsSelected(lists, changed, small, nodes, false, node) ::
              IsSelected(lists, changed, large, nodes, false, node)
  {
    if RunsWholeSuite(lists, changed, small, false) && !RunsWholeSuite(lists, changed, large, false) {
      forall nodes, node | FileOf(node) in small && node in nodes
        ensures IsSelected(lists, changed, large, nodes, false, node) <==>
                exists p :: Touches(lists, changed, large, FileOf(node), p)
      {
        TouchedIffSelected(lists, changed, large, nodes, node);
      }
      forall t | t in small
        ensures t in [t] && IsSelected(lists, changed, small, [t], false, t)
      {
        assert [t][0] == t;
      }
    } else {
      LargerMapKeepsSelectionIff(lists, changed, small, large);
    }
  }

  /**
   * It is not monotone in the map: once some test maps `path`, the whole-suite fallback for
   * unmapped paths is off, and a test that does not depend on it is no longer selected.
   */
  lemma MappingAPathCanDeselect(path: string, test: string, other: string, node: string)
    requires FileOf(node) == test && test != other
    requires path != test && !StartsWith(path, test + "/")
    ensures var lists := Lists({}, {});
            var small: DepMap := map[test := TestRecord({}, {})];
            var large: DepMap := small[other := TestRecord({path}, {})];
            IsSelected(lists, {path}, small, [node], false, node) &&
            !IsSelected(lists, {path}, large, [node], false, node)
  {
    var lists := Lists({}, {});
    var small: DepMap := map[test := TestRecord({}, {})];
    var large: DepMap := small[other := TestRecord({path}, {})];
    assert path in Unmapped(lists, {path}, small);
    assert ChangeCovers(path, path) && Covered(path, large[other].deps);
    assert MappedBy(path, other, large[other].deps);
    assert Unmapped(lists, {path}, large) == {};
    forall reason
      ensures !HasReason(lists, {path}, large, test, reason)
    {
    }
  }

  /**
   * The selector's pipeline: collect the test files of the nodes, build the map, select. The
   * outcome selects exactly the specified nodes, and a map failure selects everything.
   */
  method RunSelector(az: Analyzer, tree: Tree, lists: Lists, changedPaths: seq<string>, tests: seq<string>,
                     nodes: seq<string>)
    returns (r: Outcome)
    requires forall t :: t in tests <==> exists n :: n in nodes && FileOf(n) == t
    ensures Shared(az, tree).Err? ==> forall n :: n in nodes ==> n in r.selected
    ensures var changed := ChangedSet(changedPaths);
            Shared(az, tree).Ok? && !r.wholeSuite ==>
              forall before: Tree, n | Reported(before, tree, changed) && n in nodes && n !in r.selected ::
                LeftOut(az, before, tree, lists, changed, tests, nodes, n)
    ensures r.wholeSuite ==> forall n :: n in nodes ==> n in r.selected
  {
    var built, analysed := BuildDependencyMap(az, tree, tests);
    match built {
      case Err(_) =>
        r := ComputeSelection(lists, changedPaths, map[], nodes, true);
      case Ok(dm) =>
        r := ComputeSelection(lists, changedPaths, dm, nodes, false);
    }
  }
}
