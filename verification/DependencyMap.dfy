/**
 * scripts/canary_impact.py: the conftest chain, plugin resolution, the shared fixture
 * closure and `build_dependency_map`.
 */
module DependencyMap {
  import opened Wrappers
  import opened RepoPaths
  import opened ImportClosure

  const CONFTEST: string := "tests/conftest.py"

  /** Why a test counts as dynamic. */
  datatype Kind =
    | Own(kind: string)
    | Transitive(kind: string, file: string)
    | ChainPluginsError(file: string, reason: string)
    | ChainPluginUnresolvable(file: string, plugin: string)

  /** What the dependency map stores for one test file. */
  datatype TestRecord = TestRecord(deps: set<string>, kinds: set<Kind>) {
    predicate Dynamic() { kinds != {} }
  }

  /** Why no dependency map can be built; each one runs the whole suite. */
  datatype SharedFallback =
    | ConftestMissing
    | PluginsUnreadable(reason: string)
    | PluginUnresolvable(plugin: string)
    | SharedDynamic(sites: set<(string, string)>)

  // ---- files found by looking at the tree ----

  function ConftestOf(dir: string): string {
    Child(dir, "conftest.py")
  }

  /** The conftest file of one directory, `tests/conftest.py` excepted. */
  function ConftestIn(files: set<string>, dir: string): seq<string> {
    if ConftestOf(dir) in files && ConftestOf(dir) != CONFTEST then [ConftestOf(dir)] else []
  }

  /** The conftest files of `dir` and the directories above it. */
  function ChainFrom(files: set<string>, dir: string): seq<string>
    decreases |dir|
  {
    if dir == "" then ConftestIn(files, dir) else ConftestIn(files, dir) + ChainFrom(files, Parent(dir))
  }

  /** The chain is made of the conftest files of the directory and of all directories above it. */
  lemma {:induction false} ChainIs(files: set<string>, dir: string, c: string)
    ensures c in ChainFrom(files, dir) <==>
            exists d :: d in Ancestors(dir) && c == ConftestOf(d) && c in files && c != CONFTEST
    decreases |dir|
  {
    if dir == "" {
      assert Ancestors(dir) == [""] && Ancestors(dir)[0] == "";
    } else {
      ChainIs(files, Parent(dir), c);
      assert Ancestors(dir) == [dir] + Ancestors(Parent(dir));
      assert forall d :: d in Ancestors(dir) <==> d == dir || d in Ancestors(Parent(dir));
    }
  }

  /** `_conftest_chain`. */
  method ConftestChain(files: set<string>, test: string) returns (chain: seq<string>)
    ensures chain == ChainFrom(files, Parent(test))
  {
    chain := [];
    var directory := Parent(test);
    while true
      invariant chain + ChainFrom(files, directory) == ChainFrom(files, Parent(test))
      decreases |directory|
    {
      ghost var before := chain;
      var candidate := ConftestOf(directory);
      if candidate in files && candidate != CONFTEST {
        chain := chain + [candidate];
      }
      assert chain == before + ConftestIn(files, directory);
      if directory == "" {
        break;
      }
      Associative(before, ConftestIn(files, directory), ChainFrom(files, Parent(directory)));
      directory := Parent(directory);
    }
  }

  /** `_parent_inits`: the package initialisers that importing `path` runs. */
  function ParentInits(files: set<string>, path: string): set<string> {
    set d | d in Ancestors(Parent(path)) && d != "" && Child(d, "__init__.py") in files :: Child(d, "__init__.py")
  }

  /** The files a plugin name can mean, in the order `_resolve_plugin_file` tries them. */
  function PluginCandidates(plugin: string, conftest: string): seq<string> {
    if StartsWith(plugin, ".") then
      var remainder := DropDots(plugin);
      var package := ParentTimes(Parent(conftest), |plugin| - |remainder| - 1);
      var parts := (if package == "" then [] else Split(package, '/')) + (if remainder == "" then [] else [remainder]);
      var dotted := Join(parts, ".");
      if dotted == "" then [] else DottedCandidates(dotted)
    else
      DottedCandidates(plugin)
  }

  function DottedCandidates(dotted: string): seq<string> {
    if '.' in dotted then
      var stem := Join(NonEmpty(Split(dotted, '.')), "/");
      [stem + ".py", stem + "/__init__.py"]
    else
      [dotted + ".py", Child(dotted, "__init__.py"), "scripts/" + dotted + ".py",
       "scripts/" + Child(dotted, "__init__.py")]
  }

  function DropDots(s: string): (r: string)
    ensures |r| <= |s|
    ensures s != "" && s[0] == '.' ==> |r| < |s|
  {
    if s != "" && s[0] == '.' then DropDots(s[1..]) else s
  }

  function ParentTimes(dir: string, times: nat): string
    decreases times
  {
    if times == 0 then dir else ParentTimes(Parent(dir), times - 1)
  }

  function NonEmpty(parts: seq<string>): seq<string> {
    if parts == [] then []
    else if parts[0] == "" then NonEmpty(parts[1..])
    else [parts[0]] + NonEmpty(parts[1..])
  }

  /** `_resolve_plugin_file`. */
  function ResolvePlugin(files: set<string>, plugin: string, conftest: string): Option<string> {
    FirstExisting(files, PluginCandidates(plugin, conftest))
  }

  /** `_seed_with_parent_inits`: what one file adds to a seed set. */
  function WithInits(files: set<string>, path: string): set<string> {
    {path} + ParentInits(files, path)
  }

  // ---- specification of the map ----

  /** The seeds that the resolvable plugins among `names` contribute. */
  ghost function PluginSeeds(files: set<string>, names: seq<string>, conftest: string): set<string> {
    set n, s | n in names && ResolvePlugin(files, n, conftest).Some? &&
               s in WithInits(files, ResolvePlugin(files, n, conftest).value) :: s
  }

  ghost function Unresolvable(files: set<string>, names: seq<string>, conftest: string): set<Kind> {
    set n | n in names && ResolvePlugin(files, n, conftest).None? :: ChainPluginUnresolvable(conftest, n)
  }

  ghost function FirstUnresolvable(files: set<string>, names: seq<string>, conftest: string): Option<string> {
    if names == [] then None
    else if ResolvePlugin(files, names[0], conftest).None? then Some(names[0])
    else FirstUnresolvable(files, names[1..], conftest)
  }

  ghost function SharedSeeds(files: set<string>, names: seq<string>): set<string> {
    {CONFTEST} + PluginSeeds(files, names, CONFTEST)
  }

  /** The dynamic kinds found in the seeds themselves. */
  ghost function DynamicSites(az: Analyzer, tree: Tree, seeds: set<string>): set<(string, string)> {
    set p, k | p in seeds && IsPython(p) && k in Analyze(az, tree, p).kinds :: (k, p)
  }

  /** The fixture closure every test depends on. */
  ghost function Shared(az: Analyzer, tree: Tree): Result<set<string>, SharedFallback> {
    if CONFTEST !in tree then Err(ConftestMissing)
    else
      match az.readPlugins(tree[CONFTEST])
      case PluginError(reason) => Err(PluginsUnreadable(reason))
      case Plugins(names) =>
        var missing := FirstUnresolvable(tree.Keys, names, CONFTEST);
        if missing.Some? then Err(PluginUnresolvable(missing.value))
        else
          var seeds := SharedSeeds(tree.Keys, names);
          var sites := DynamicSites(az, tree, seeds);
          if sites != {} then Err(SharedDynamic(sites)) else Ok(Closure(az, tree, seeds))
  }

  /** What one conftest of the chain adds to the seeds of a test. */
  ghost function ConftestSeeds(az: Analyzer, tree: Tree, conftest: string): set<string>
    requires conftest in tree
  {
    {conftest} + Analyze(az, tree, conftest).deps +
    match az.readPlugins(tree[conftest])
    case PluginError(_) => {}
    case Plugins(names) => PluginSeeds(tree.Keys, names, conftest)
  }

  /** What one conftest of the chain adds to the dynamic kinds of a test. */
  ghost function ConftestKinds(az: Analyzer, tree: Tree, conftest: string): set<Kind>
    requires conftest in tree
  {
    (set k | k in Analyze(az, tree, conftest).kinds :: Transitive(k, conftest)) +
    match az.readPlugins(tree[conftest])
    case PluginError(reason) => {ChainPluginsError(conftest, reason)}
    case Plugins(names) => Unresolvable(tree.Keys, names, conftest)
  }

  ghost function ChainSeeds(az: Analyzer, tree: Tree, chain: seq<string>): set<string>
    requires forall c :: c in chain ==> c in tree
  {
    set c, s | c in chain && s in ConftestSeeds(az, tree, c) :: s
  }

  ghost function ChainKinds(az: Analyzer, tree: Tree, chain: seq<string>): set<Kind>
    requires forall c :: c in chain ==> c in tree
  {
    set c, k | c in chain && k in ConftestKinds(az, tree, c) :: k
  }

  lemma ChainExists(files: set<string>, dir: string)
    ensures forall c :: c in ChainFrom(files, dir) ==> c in files
    decreases |dir|
  {
    if dir != "" {
      ChainExists(files, Parent(dir));
    }
  }

  /** Everything the closure of a test starts from. */
  ghost function TestSeeds(az: Analyzer, tree: Tree, test: string): set<string> {
    ChainExists(tree.Keys, Parent(test));
    Analyze(az, tree, test).deps + ChainSeeds(az, tree, ChainFrom(tree.Keys, Parent(test)))
  }

  /** The dependencies recorded for a test: its closure, its package initialisers, the fixtures. */
  ghost function TestDeps(az: Analyzer, tree: Tree, shared: set<string>, test: string): set<string> {
    Closure(az, tree, TestSeeds(az, tree, test)) + ParentInits(tree.Keys, test) + shared
  }

  predicate IsImportKind(kind: string) {
    kind == "dynamic_import" || StartsWith(kind, "unresolvable_import:")
  }

  /** Unresolved imports of library files that only this test reaches. */
  ghost function LibraryKinds(az: Analyzer, tree: Tree, closure: set<string>, handled: set<string>): set<Kind> {
    set p, k | p in closure && IsPython(p) && p !in handled && k in Analyze(az, tree, p).kinds && IsImportKind(k)
      :: Transitive(k, p)
  }

  ghost function TestKinds(az: Analyzer, tree: Tree, shared: set<string>, test: string): set<Kind> {
    ChainExists(tree.Keys, Parent(test));
    var chain := ChainFrom(tree.Keys, Parent(test));
    (set k | k in Analyze(az, tree, test).kinds :: Own(k)) + ChainKinds(az, tree, chain) +
    LibraryKinds(az, tree, Closure(az, tree, TestSeeds(az, tree, test)), (set c | c in chain) + {test} + shared)
  }

  ghost function RecordOf(az: Analyzer, tree: Tree, shared: set<string>, test: string): TestRecord {
    TestRecord(TestDeps(az, tree, shared, test), TestKinds(az, tree, shared, test))
  }

  ghost function BuildMap(az: Analyzer, tree: Tree, tests: seq<string>)
    : Result<map<string, TestRecord>, SharedFallback> {
    match Shared(az, tree)
    case Err(e) => Err(e)
    case Ok(shared) => Ok(RecordMap(az, tree, shared, tests))
  }

  ghost function RecordMap(az: Analyzer, tree: Tree, shared: set<string>, tests: seq<string>)
    : map<string, TestRecord> {
    map t | t in tests :: RecordOf(az, tree, shared, t)
  }

  // ---- which files are analysed ----

  /** The Python files of the shared closure, if the plugins can be found. */
  ghost function SharedFiles(az: Analyzer, tree: Tree): set<string> {
    if CONFTEST !in tree then {}
    else
      match az.readPlugins(tree[CONFTEST])
      case PluginError(_) => {}
      case Plugins(names) =>
        if FirstUnresolvable(tree.Keys, names, CONFTEST).Some? then {}
        else PythonMembers(Closure(az, tree, SharedSeeds(tree.Keys, names)))
  }

  /** The test file and the Python files of its closure. */
  ghost function TestFiles(az: Analyzer, tree: Tree, test: string): set<string> {
    {test} + PythonMembers(Closure(az, tree, TestSeeds(az, tree, test)))
  }

  /** The files whose analysis the map needs: none of a test once the fixtures are refused. */
  ghost predicate IsNeeded(az: Analyzer, tree: Tree, tests: seq<string>, path: string) {
    path in SharedFiles(az, tree) ||
    (Shared(az, tree).Ok? && exists t :: t in tests && path in TestFiles(az, tree, t))
  }

  /** The conftest files of a chain are among the Python files of the test's closure. */
  lemma ChainIsNeeded(az: Analyzer, tree: Tree, test: string)
    ensures forall c :: c in ChainFrom(tree.Keys, Parent(test)) ==> c in TestFiles(az, tree, test)
  {
    ChainExists(tree.Keys, Parent(test));
    ClosureIsLeast(az, tree, TestSeeds(az, tree, test));
    forall c | c in ChainFrom(tree.Keys, Parent(test))
      ensures c in TestSeeds(az, tree, test) && IsPython(c)
    {
      assert c in ConftestSeeds(az, tree, c);
      ChainIs(tree.Keys, Parent(test), c);
      var d :| d in Ancestors(Parent(test)) && c == ConftestOf(d);
      ConftestIsPython(d);
    }
  }

  lemma ConftestIsPython(dir: string)
    ensures IsPython(ConftestOf(dir))
  {
    var c, name := ConftestOf(dir), "conftest.py";
    ChildEnds(dir, name);
    assert c[|c| - 3..] == c[|c| - |name|..][|name| - 3..];
  }

  // ---- the code ----

  /** `_build_shared_deps`. */
  method BuildSharedDeps(cache: AnalysisCache) returns (r: Result<set<string>, SharedFallback>)
    requires cache.Valid()
    modifies cache
    ensures cache.Valid()
    ensures r == Shared(cache.az, cache.tree)
    ensures forall p :: p in cache.entries <==> p in old(cache.entries) || p in SharedFiles(cache.az, cache.tree)
  {
    var az, tree := cache.az, cache.tree;
    if CONFTEST !in tree {
      return Err(ConftestMissing);
    }
    match az.readPlugins(tree[CONFTEST]) {
      case PluginError(reason) =>
        return Err(PluginsUnreadable(reason));
      case Plugins(names) =>
        var plugins := SeedSharedPlugins(tree.Keys, names);
        if plugins.Err? {
          return Err(PluginUnresolvable(plugins.error));
        }
        var seeds := plugins.value;
        var closure, dynamicFiles := cache.ExpandClosure(seeds);
        ClosureIsLeast(az, tree, seeds);
        var sites := set p, k | p in dynamicFiles && p in seeds && k in dynamicFiles[p] :: (k, p);
        assert sites == DynamicSites(az, tree, seeds);
        if sites != {} {
          return Err(SharedDynamic(sites));
        }
        return Ok(closure);
    }
  }

  /** The plugin loop of `_build_shared_deps`. */
  method SeedSharedPlugins(files: set<string>, names: seq<string>) returns (r: Result<set<string>, string>)
    ensures match FirstUnresolvable(files, names, CONFTEST)
            case Some(plugin) => r == Err(plugin)
            case None => r == Ok(SharedSeeds(files, names))
  {
    var seeds := {CONFTEST};
    for i := 0 to |names|
      invariant seeds == SharedSeeds(files, names[..i])
      invariant FirstUnresolvable(files, names, CONFTEST) == FirstUnresolvable(files, names[i..], CONFTEST)
    {
      var file := ResolvePlugin(files, names[i], CONFTEST);
      if file.None? {
        return Err(names[i]);
      }
      PluginSeedsExtend(files, names[..i], names[i], CONFTEST);
      TakeNext(names, i);
      seeds := seeds + WithInits(files, file.value);
    }
    TakeAll(names);
    r := Ok(seeds);
  }

  lemma PluginSeedsExtend(files: set<string>, names: seq<string>, name: string, conftest: string)
    ensures PluginSeeds(files, names + [name], conftest) ==
            PluginSeeds(files, names, conftest) +
            match ResolvePlugin(files, name, conftest) { case Some(f) => WithInits(files, f) case None => {} }
  {
  }

  /** The body of the chain loop for one conftest. */
  method AddConftest(cache: AnalysisCache, conftest: string, seeds: set<string>, kinds: set<Kind>)
    returns (seeds': set<string>, kinds': set<Kind>)
    requires cache.Valid() && conftest in cache.tree
    modifies cache
    ensures cache.Valid()
    ensures seeds' == seeds + ConftestSeeds(cache.az, cache.tree, conftest)
    ensures kinds' == kinds + ConftestKinds(cache.az, cache.tree, conftest)
    ensures forall p :: p in cache.entries <==> p in old(cache.entries) || p == conftest
  {
    var az, tree := cache.az, cache.tree;
    var deps := cache.Lookup(conftest);
    seeds' := seeds + {conftest} + deps.deps;
    kinds' := kinds + set k | k in deps.kinds :: Transitive(k, conftest);
    match az.readPlugins(tree[conftest]) {
      case PluginError(reason) =>
        kinds' := kinds' + {ChainPluginsError(conftest, reason)};
      case Plugins(names) =>
        var files, unresolvable := SeedChainPlugins(tree.Keys, names, conftest);
        seeds' := seeds' + files;
        kinds' := kinds' + unresolvable;
    }
  }

  /** The plugin loop for one conftest of the chain. */
  method SeedChainPlugins(files: set<string>, names: seq<string>, conftest: string)
    returns (seeds: set<string>, kinds: set<Kind>)
    ensures seeds == PluginSeeds(files, names, conftest)
    ensures kinds == Unresolvable(files, names, conftest)
  {
    seeds, kinds := {}, {};
    for i := 0 to |names|
      invariant seeds == PluginSeeds(files, names[..i], conftest)
      invariant kinds == Unresolvable(files, names[..i], conftest)
    {
      var file := ResolvePlugin(files, names[i], conftest);
      PluginSeedsExtend(files, names[..i], names[i], conftest);
      UnresolvableExtend(files, names[..i], names[i], conftest);
      TakeNext(names, i);
      if file.None? {
        kinds := kinds + {ChainPluginUnresolvable(conftest, names[i])};
      } else {
        seeds := seeds + WithInits(files, file.value);
      }
    }
    TakeAll(names);
  }

  lemma UnresolvableExtend(files: set<string>, names: seq<string>, name: string, conftest: string)
    ensures Unresolvable(files, names + [name], conftest) ==
            Unresolvable(files, names, conftest) +
            if ResolvePlugin(files, name, conftest).None? then {ChainPluginUnresolvable(conftest, name)} else {}
  {
  }

  lemma ChainExtend(az: Analyzer, tree: Tree, chain: seq<string>, c: string)
    requires (forall d :: d in chain ==> d in tree) && c in tree
    ensures ChainSeeds(az, tree, chain + [c]) == ChainSeeds(az, tree, chain) + ConftestSeeds(az, tree, c)
    ensures ChainKinds(az, tree, chain + [c]) == ChainKinds(az, tree, chain) + ConftestKinds(az, tree, c)
  {
  }

  lemma LibraryKindsOf(az: Analyzer, tree: Tree, closure: set<string>, handled: set<string>)
    ensures var dynamicFiles := DynamicMembers(az, tree, closure);
            LibraryKinds(az, tree, closure, handled) ==
            set p, k | p in dynamicFiles && k in dynamicFiles[p] && p !in handled && IsImportKind(k) :: Transitive(k, p)
  {
  }

  /** The chain loop. */
  method AddChain(cache: AnalysisCache, chain: seq<string>) returns (seeds: set<string>, kinds: set<Kind>)
    requires cache.Valid() && forall c :: c in chain ==> c in cache.tree
    modifies cache
    ensures cache.Valid()
    ensures seeds == ChainSeeds(cache.az, cache.tree, chain)
    ensures kinds == ChainKinds(cache.az, cache.tree, chain)
    ensures forall p :: p in cache.entries <==> p in old(cache.entries) || p in chain
  {
    seeds, kinds := {}, {};
    for i := 0 to |chain|
      invariant cache.Valid()
      invariant seeds == ChainSeeds(cache.az, cache.tree, chain[..i])
      invariant kinds == ChainKinds(cache.az, cache.tree, chain[..i])
      invariant forall p :: p in cache.entries <==> p in old(cache.entries) || p in chain[..i]
    {
      ChainExtend(cache.az, cache.tree, chain[..i], chain[i]);
      TakeNext(chain, i);
      seeds, kinds := AddConftest(cache, chain[i], seeds, kinds);
    }
    TakeAll(chain);
  }

  /** One iteration of the test loop of `build_dependency_map`. */
  method BuildRecord(cache: AnalysisCache, shared: set<string>, test: string) returns (record: TestRecord)
    requires cache.Valid()
    modifies cache
    ensures cache.Valid()
    ensures record == RecordOf(cache.az, cache.tree, shared, test)
    ensures forall p :: p in cache.entries <==> p in old(cache.entries) || p in TestFiles(cache.az, cache.tree, test)
  {
    var az, tree := cache.az, cache.tree;
    var direct := cache.Lookup(test);
    var chain := ConftestChain(tree.Keys, test);
    ChainIsNeeded(az, tree, test);
    ChainExists(tree.Keys, Parent(test));
    var chainSeeds, chainKinds := AddChain(cache, chain);
    var seeds := direct.deps + chainSeeds;
    var kinds := (set k | k in direct.kinds :: Own(k)) + chainKinds;
    var expanded, closureDynamic := cache.ExpandClosure(seeds);
    var handled := (set c | c in chain) + {test};
    LibraryKindsOf(az, tree, expanded, handled + shared);
    kinds := kinds + set p, k | p in closureDynamic && k in closureDynamic[p] && p !in handled + shared &&
                                IsImportKind(k) :: Transitive(k, p);
    expanded := expanded + ParentInits(tree.Keys, test);
    record := TestRecord(expanded + shared, kinds);
  }

  /**
   * `build_dependency_map`: the map of the test files, or the fallback. `analysed` is the
   * log of the shared cache: exactly the needed files are analysed, none of them twice.
   */
  method BuildDependencyMap(az: Analyzer, tree: Tree, tests: seq<string>)
    returns (r: Result<map<string, TestRecord>, SharedFallback>, ghost analysed: seq<string>)
    ensures r == BuildMap(az, tree, tests)
    ensures forall p :: p in analysed <==> IsNeeded(az, tree, tests, p)
    ensures forall i, j :: 0 <= i < j < |analysed| ==> analysed[i] != analysed[j]
  {
    var cache := new AnalysisCache(az, tree);
    var shared := BuildSharedDeps(cache);
    analysed := cache.analysed;
    match shared {
      case Err(e) =>
        r := Err(e);
      case Ok(fixtures) =>
        var depMap := BuildRecords(cache, fixtures, tests);
        analysed := cache.analysed;
        r := Ok(depMap);
    }
  }

  lemma RecordMapExtend(az: Analyzer, tree: Tree, shared: set<string>, tests: seq<string>, test: string)
    ensures RecordMap(az, tree, shared, tests + [test]) ==
            RecordMap(az, tree, shared, tests)[test := RecordOf(az, tree, shared, test)]
  {
  }

  /** The test loop of `build_dependency_map`. */
  method BuildRecords(cache: AnalysisCache, shared: set<string>, tests: seq<string>)
    returns (depMap: map<string, TestRecord>)
    requires cache.Valid()
    modifies cache
    ensures cache.Valid()
    ensures depMap == RecordMap(cache.az, cache.tree, shared, tests)
    ensures forall p :: p in cache.entries <==>
              p in old(cache.entries) || exists t :: t in tests && p in TestFiles(cache.az, cache.tree, t)
  {
    depMap := map[];
    for i := 0 to |tests|
      invariant cache.Valid()
      invariant depMap == RecordMap(cache.az, cache.tree, shared, tests[..i])
      invariant forall p :: p in cache.entries <==>
                  p in old(cache.entries) || exists t :: t in tests[..i] && p in TestFiles(cache.az, cache.tree, t)
    {
      var record := BuildRecord(cache, shared, tests[i]);
      RecordMapExtend(cache.az, cache.tree, shared, tests[..i], tests[i]);
      TakeNext(tests, i);
      depMap := depMap[tests[i] := record];
    }
    TakeAll(tests);
  }
}
