/**
 * scripts/canary_impact.py, `_expand_closure`: the memoised worklist that closes a
 * set of seed files under the dependencies of its Python members.
 *
 * The AST analysis of one file is a parameter (`Analyzer`), a function of the file's
 * path and text; everything around it is modelled.
 */
module ImportClosure {
  import opened RepoPaths

  /** File contents by repository-relative path. */
  type Tree = map<string, string>

  /** What the analysis of one file reports. A file is dynamic when it has a dynamic kind. */
  datatype FileDeps = FileDeps(deps: set<string>, kinds: set<string>) {
    predicate Dynamic() { kinds != {} }
  }

  /** The plugin names a conftest declares, or why they cannot be read. */
  datatype PluginRead = Plugins(names: seq<string>) | PluginError(reason: string)

  /** The syntactic analyses: functions of a file's path and text. */
  datatype Analyzer = Analyzer(parse: (string, string) -> FileDeps, readPlugins: string -> PluginRead)

  const UNPARSEABLE: FileDeps := FileDeps({}, {"unparseable_file"})

  /** `analyze_python_file`: a file that cannot be read is dynamic and has no deps. */
  function Analyze(az: Analyzer, tree: Tree, path: string): FileDeps {
    if path in tree then az.parse(path, tree[path]) else UNPARSEABLE
  }

  predicate IsPython(path: string) {
    EndsWith(path, ".py")
  }

  // ---- specification: least closed set ----

  /** `s` contains the deps of each of its Python members. */
  ghost predicate IsClosed(az: Analyzer, tree: Tree, s: set<string>) {
    forall p :: p in s && IsPython(p) ==> Analyze(az, tree, p).deps <= s
  }

  /** The deps of the Python members of `s`. */
  ghost function Step(az: Analyzer, tree: Tree, s: set<string>): set<string> {
    set p, d | p in s && IsPython(p) && d in Analyze(az, tree, p).deps :: d
  }

  /** Every path that some file of the tree depends on; it bounds all closures. */
  ghost function TreeDeps(az: Analyzer, tree: Tree): set<string> {
    set p, d | p in tree && d in az.parse(p, tree[p]).deps :: d
  }

  ghost function Closure(az: Analyzer, tree: Tree, seeds: set<string>): set<string>
    decreases TreeDeps(az, tree) - seeds
  {
    var next := seeds + Step(az, tree, seeds);
    if next == seeds then seeds
    else
      StepBounded(az, tree, seeds);
      Closure(az, tree, next)
  }

  lemma StepBounded(az: Analyzer, tree: Tree, s: set<string>)
    ensures Step(az, tree, s) <= TreeDeps(az, tree)
    ensures s + Step(az, tree, s) != s ==>
              TreeDeps(az, tree) - (s + Step(az, tree, s)) < TreeDeps(az, tree) - s
  {
    var next := s + Step(az, tree, s);
    if next != s {
      var d :| d in next && d !in s;
      assert d in TreeDeps(az, tree) - s && d !in TreeDeps(az, tree) - next;
    }
  }

  /** The closure contains the seeds, is closed, and lies inside every closed superset. */
  lemma {:induction false} ClosureIsLeast(az: Analyzer, tree: Tree, seeds: set<string>)
    ensures seeds <= Closure(az, tree, seeds)
    ensures IsClosed(az, tree, Closure(az, tree, seeds))
    ensures forall s :: seeds <= s && IsClosed(az, tree, s) ==> Closure(az, tree, seeds) <= s
    decreases TreeDeps(az, tree) - seeds
  {
    var next := seeds + Step(az, tree, seeds);
    if next != seeds {
      StepBounded(az, tree, seeds);
      ClosureIsLeast(az, tree, next);
    } else {
      forall p | p in seeds && IsPython(p)
        ensures Analyze(az, tree, p).deps <= seeds
      {
        assert Analyze(az, tree, p).deps <= Step(az, tree, seeds);
      }
    }
  }

  /** Two trees that agree on one tree's closure have the same closure. */
  lemma ClosureAgrees(az: Analyzer, before: Tree, after: Tree, seeds: set<string>)
    requires forall p :: p in Closure(az, after, seeds) ==> Analyze(az, before, p) == Analyze(az, after, p)
    ensures Closure(az, before, seeds) == Closure(az, after, seeds)
  {
    ClosureIsLeast(az, before, seeds);
    ClosureIsLeast(az, after, seeds);
    assert IsClosed(az, before, Closure(az, after, seeds));
    assert IsClosed(az, after, Closure(az, before, seeds));
  }

  /** The dynamic Python files of `s`, with their kinds. */
  ghost function DynamicMembers(az: Analyzer, tree: Tree, s: set<string>): map<string, set<string>> {
    map p | p in s && IsPython(p) && Analyze(az, tree, p).Dynamic() :: Analyze(az, tree, p).kinds
  }

  ghost function PythonMembers(s: set<string>): set<string> {
    set p | p in s && IsPython(p)
  }

  /** The loop invariant of the worklist: `visited` members are expanded, the rest wait. */
  ghost predicate Worklist(az: Analyzer, tree: Tree, seeds: set<string>, allDeps: set<string>,
                           stack: seq<string>, visited: set<string>) {
    && seeds <= allDeps <= Closure(az, tree, seeds)
    && allDeps <= seeds + TreeDeps(az, tree)
    && (forall p :: p in stack ==> p in allDeps && IsPython(p))
    && (forall p :: p in visited ==> p in allDeps && IsPython(p) && Analyze(az, tree, p).deps <= allDeps)
    && (forall p :: p in allDeps && IsPython(p) ==> p in visited || p in stack)
  }

  /** The paths that could still be added; it shrinks whenever a path is. */
  ghost function Unseen(az: Analyzer, tree: Tree, seeds: set<string>, allDeps: set<string>): nat {
    |seeds + TreeDeps(az, tree) - allDeps|
  }

  lemma WorklistInit(az: Analyzer, tree: Tree, seeds: set<string>, stack: seq<string>)
    requires forall p :: p in stack <==> p in seeds && IsPython(p)
    ensures Worklist(az, tree, seeds, seeds, stack, {})
  {
    ClosureIsLeast(az, tree, seeds);
  }

  lemma Cardinality(a: set<string>, b: set<string>, d: string)
    requires a <= b && d in b && d !in a
    ensures |a| < |b|
  {
    SubsetCardinality(a, b - {d});
  }

  lemma {:induction false} SubsetCardinality(a: set<string>, b: set<string>)
    requires a <= b
    ensures |a| <= |b|
  {
    if a != {} {
      var x :| x in a;
      SubsetCardinality(a - {x}, b - {x});
    }
  }

  /** One iteration: visiting `rel` and pushing its unseen Python deps keeps the invariant. */
  lemma WorklistStep(az: Analyzer, tree: Tree, seeds: set<string>, allDeps: set<string>, stack: seq<string>,
                     visited: set<string>, stack': seq<string>)
    requires stack != [] && Worklist(az, tree, seeds, allDeps, stack, visited)
    requires var top := |stack| - 1;
             forall p :: p in stack' <==>
                         p in stack[..top] || (p in Analyze(az, tree, stack[top]).deps - allDeps && IsPython(p))
    ensures IsPython(stack[|stack| - 1])
    ensures var rel := stack[|stack| - 1]; var deps := Analyze(az, tree, rel).deps;
            && Worklist(az, tree, seeds, allDeps + deps, stack', visited + {rel})
            && (deps <= allDeps ==> allDeps + deps == allDeps)
            && (!(deps <= allDeps) ==> Unseen(az, tree, seeds, allDeps + deps) < Unseen(az, tree, seeds, allDeps))
  {
    var rel, rest := stack[|stack| - 1], stack[..|stack| - 1];
    assert stack == rest + [rel];
    var deps := Analyze(az, tree, rel).deps;
    if d :| d in deps && d !in allDeps {
      var universe := seeds + TreeDeps(az, tree);
      Cardinality(universe - (allDeps + deps), universe - allDeps, d);
    }
    ClosureIsLeast(az, tree, seeds);
    assert rel in stack;
    assert deps <= TreeDeps(az, tree);
  }

  /** Skipping an entry that was visited already keeps the invariant. */
  lemma WorklistSkip(az: Analyzer, tree: Tree, seeds: set<string>, allDeps: set<string>, stack: seq<string>,
                     visited: set<string>)
    requires stack != [] && Worklist(az, tree, seeds, allDeps, stack, visited)
    requires stack[|stack| - 1] in visited
    ensures Worklist(az, tree, seeds, allDeps, stack[..|stack| - 1], visited)
  {
    var rel, rest := stack[|stack| - 1], stack[..|stack| - 1];
    assert stack == rest + [rel];
  }

  /** An empty worklist has computed the closure. */
  lemma WorklistDone(az: Analyzer, tree: Tree, seeds: set<string>, allDeps: set<string>, visited: set<string>)
    requires Worklist(az, tree, seeds, allDeps, [], visited)
    ensures allDeps == Closure(az, tree, seeds) && visited == PythonMembers(allDeps)
  {
    ClosureIsLeast(az, tree, seeds);
    assert IsClosed(az, tree, allDeps);
  }

  lemma DynamicMembersExtend(az: Analyzer, tree: Tree, s: set<string>, p: string)
    requires IsPython(p)
    ensures DynamicMembers(az, tree, s + {p}) ==
            if Analyze(az, tree, p).Dynamic() then DynamicMembers(az, tree, s)[p := Analyze(az, tree, p).kinds]
            else DynamicMembers(az, tree, s)
  {
  }

  lemma DynamicMembersOfPython(az: Analyzer, tree: Tree, s: set<string>)
    ensures DynamicMembers(az, tree, PythonMembers(s)) == DynamicMembers(az, tree, s)
  {
  }

  /**
   * The `cache` dict one selector run shares between all its closures. `analysed` logs
   * the calls of the file analysis in order.
   */
  class AnalysisCache {
    const az: Analyzer
    const tree: Tree
    var entries: map<string, FileDeps>
    ghost var analysed: seq<string>

    /** Every entry is what a fresh analysis would return, and no file was analysed twice. */
    ghost predicate Valid()
      reads this
    {
      && (forall p :: p in entries ==> entries[p] == Analyze(az, tree, p))
      && (forall i, j :: 0 <= i < j < |analysed| ==> analysed[i] != analysed[j])
      && (forall p :: p in entries <==> p in analysed)
    }

    constructor (az: Analyzer, tree: Tree)
      ensures Valid() && this.az == az && this.tree == tree && entries == map[] && analysed == []
    {
      this.az := az;
      this.tree := tree;
      entries := map[];
      analysed := [];
    }

    /** The `cache.get(rel)` / analyse / store step. */
    method Lookup(path: string) returns (deps: FileDeps)
      requires Valid()
      modifies this
      ensures Valid()
      ensures deps == Analyze(az, tree, path)
      ensures forall p :: p in entries <==> p in old(entries) || p == path
      ensures analysed == if path in old(entries) then old(analysed) else old(analysed) + [path]
    {
      if path in entries {
        deps := entries[path];
      } else {
        deps := Analyze(az, tree, path);
        entries := entries[path := deps];
        analysed := analysed + [path];
      }
    }

    /**
     * `_expand_closure`. The result is the least closed superset of the seeds, the dynamic
     * files are exactly its dynamic Python members, and exactly its Python members that
     * were not cached yet are analysed, each once.
     */
    method ExpandClosure(seeds: set<string>)
      returns (allDeps: set<string>, dynamicFiles: map<string, set<string>>)
      requires Valid()
      modifies this
      ensures Valid()
      ensures allDeps == Closure(az, tree, seeds)
      ensures dynamicFiles == DynamicMembers(az, tree, allDeps)
      ensures forall p :: p in entries <==> p in old(entries) || p in PythonMembers(allDeps)
      ensures old(analysed) <= analysed
    {
      allDeps := seeds;
      dynamicFiles := map[];
      var stack := InitialStack(seeds);
      var visited: set<string> := {};
      WorklistInit(az, tree, seeds, stack);
      ghost var cached := entries.Keys;
      while stack != []
        invariant Valid()
        invariant Worklist(az, tree, seeds, allDeps, stack, visited)
        invariant dynamicFiles == DynamicMembers(az, tree, visited)
        invariant forall p :: p in entries <==> p in cached || p in visited
        invariant old(analysed) <= analysed
        decreases Unseen(az, tree, seeds, allDeps), |stack|
      {
        var rel := stack[|stack| - 1];
        ghost var waiting := stack;
        stack := stack[..|stack| - 1];
        if rel in visited {
          WorklistSkip(az, tree, seeds, allDeps, waiting, visited);
        } else {
          var fileDeps := Lookup(rel);
          DynamicMembersExtend(az, tree, visited, rel);
          if fileDeps.Dynamic() {
            dynamicFiles := dynamicFiles[rel := fileDeps.kinds];
          }
          var allDeps', stack' := PushNew(fileDeps.deps, allDeps, stack);
          WorklistStep(az, tree, seeds, allDeps, waiting, visited, stack');
          visited, allDeps, stack := visited + {rel}, allDeps', stack';
        }
      }
      WorklistDone(az, tree, seeds, allDeps, visited);
      DynamicMembersOfPython(az, tree, allDeps);
    }
  }

  /** The Python seeds, as a stack. The source sorts them; no result depends on the order. */
  method InitialStack(seeds: set<string>) returns (stack: seq<string>)
    ensures forall p :: p in stack <==> p in seeds && IsPython(p)
  {
    stack := [];
    var rest := seeds;
    while rest != {}
      invariant rest <= seeds
      invariant forall p :: p in stack <==> p in seeds - rest && IsPython(p)
    {
      var p :| p in rest;
      rest := rest - {p};
      if IsPython(p) {
        stack := stack + [p];
      }
    }
  }

  /** The inner loop: add each unseen dep, and push it when it is Python. */
  method PushNew(deps: set<string>, allDeps: set<string>, stack: seq<string>)
    returns (allDeps': set<string>, stack': seq<string>)
    ensures allDeps' == allDeps + deps
    ensures stack <= stack'
    ensures forall p :: p in stack' <==> p in stack || (p in deps - allDeps && IsPython(p))
    ensures deps <= allDeps ==> stack' == stack
  {
    allDeps', stack' := allDeps, stack;
    var rest := deps;
    while rest != {}
      invariant rest <= deps
      invariant allDeps' == allDeps + (deps - rest)
      invariant stack <= stack'
      invariant forall p :: p in stack' <==> p in stack || (p in deps - rest - allDeps && IsPython(p))
      invariant deps <= allDeps ==> stack' == stack
    {
      var dep :| dep in rest;
      rest := rest - {dep};
      if dep !in allDeps' {
        allDeps' := allDeps' + {dep};
        if IsPython(dep) {
          stack' := stack' + [dep];
        }
      }
    }
  }
}
