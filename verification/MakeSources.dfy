/** make/check_makefile_inventory.py, `expand_make_sources`: recursive include expansion. */
module MakeSources {
  import opened Wrappers
  import opened RepoPaths
  import opened MakeSyntax

  datatype SourceLine = SourceLine(text: string, path: string, number: nat)

  /** The files by path; `resolve` turns an include token of a file into a path. */
  datatype Files = Files(lines: map<string, seq<string>>, resolve: (string, string) -> string)

  datatype Error = Cycle(chain: seq<string>) | Missing(path: string) | Dynamic(path: string, token: string)

  /** The expanded lines and the included files in the order they were met, or an error. */
  datatype Expansion = Expanded(lines: seq<SourceLine>, includes: seq<string>) | Failed(error: Error)

  const ROOT_VARIABLE: string := "$(BENCHBOX_MAKEFILE_ROOT)"

  /** `_resolve_include`. */
  function ResolveInclude(files: Files, source: string, token: string): Result<string, Error> {
    if !StartsWith(token, ROOT_VARIABLE) && ('$' in token || exists c :: c in token && IsSpace(c)) then
      Err(Dynamic(source, token))
    else Ok(files.resolve(source, token))
  }

  predicate Opens(text: string, inDefine: bool) {
    inDefine || DefineName(text).Some?
  }

  /** The include directive of a line, unless it is in a define block or a recipe. */
  function Directive(text: string, inDefine: bool): Option<string> {
    if Opens(text, inDefine) || IsRecipe(text) then None else IncludeToken(text)
  }

  /** Whether the next line is still inside the define block. */
  predicate StaysOpen(text: string, inDefine: bool) {
    Opens(text, inDefine) && text != ENDEF
  }

  // ---- what `visit` computes ----

  function Elements(s: seq<string>): set<string> {
    set x | x in s
  }

  function Unopened(files: Files, active: seq<string>): nat {
    |files.lines.Keys - Elements(active)|
  }

  lemma OpeningShrinks(files: Files, active: seq<string>, path: string)
    requires path in files.lines && path !in active
    ensures Unopened(files, active + [path]) < Unopened(files, active)
  {
    assert files.lines.Keys - Elements(active) == (files.lines.Keys - Elements(active + [path])) + {path};
  }

  function Expand(files: Files, path: string, active: seq<string>): Expansion
    decreases Unopened(files, active), 0
  {
    if path in active then Failed(Cycle(active + [path]))
    else if path !in files.lines then Failed(Missing(path))
    else
      OpeningShrinks(files, active, path);
      ExpandLines(files, path, 0, false, active + [path])
  }

  /** The lines of an open file from line `n` on. */
  function ExpandLines(files: Files, path: string, n: nat, inDefine: bool, active: seq<string>): Expansion
    requires path in files.lines && n <= |files.lines[path]|
    decreases Unopened(files, active), |files.lines[path]| - n + 2
  {
    if n == |files.lines[path]| then Expanded([], [])
    else
      Then(ExpandLine(files, path, n, inDefine, active),
           ExpandLines(files, path, n + 1, StaysOpen(files.lines[path][n], inDefine), active))
  }

  /** One line: itself, or the expansion of the file it includes. */
  function ExpandLine(files: Files, path: string, n: nat, inDefine: bool, active: seq<string>): Expansion
    requires path in files.lines && n < |files.lines[path]|
    decreases Unopened(files, active), 1
  {
    var text := files.lines[path][n];
    var directive := Directive(text, inDefine);
    if directive.None? then Expanded([SourceLine(text, path, n + 1)], [])
    else
      match ResolveInclude(files, path, directive.value)
      case Err(e) => Failed(e)
      case Ok(included) => After(included, Expand(files, included, active))
  }

  /** Two expansions in sequence; the first failure wins. */
  function Then(a: Expansion, b: Expansion): Expansion {
    if a.Failed? then a
    else if b.Failed? then b
    else Expanded(a.lines + b.lines, a.includes + b.includes)
  }

  lemma ThenAssociative(a: Expansion, b: Expansion, c: Expansion)
    ensures Then(a, Then(b, c)) == Then(Then(a, b), c)
  {
  }

  function After(included: string, e: Expansion): Expansion {
    if e.Failed? then e else Expanded(e.lines, [included] + e.includes)
  }

  // ---- the code ----

  class Reader {
    const files: Files
    var active: seq<string>
    var includeOrder: seq<string>

    constructor (files: Files)
      ensures this.files == files && active == [] && includeOrder == []
    {
      this.files := files;
      active, includeOrder := [], [];
    }

    /** `visit`. */
    method Visit(path: string) returns (r: Result<seq<SourceLine>, Error>)
      modifies this
      ensures match Expand(files, path, old(active))
              case Failed(e) => r == Err(e)
              case Expanded(lines, includes) =>
                r == Ok(lines) && active == old(active) && includeOrder == old(includeOrder) + includes
      decreases Unopened(files, active), 0
    {
      if path in active {
        return Err(Cycle(active + [path]));
      }
      if path !in files.lines {
        return Err(Missing(path));
      }
      OpeningShrinks(files, active, path);
      active := active + [path];
      r := VisitLines(path);
      if r.Ok? {
        active := active[..|active| - 1];
      }
    }

    /** The line loop of `visit`. */
    method VisitLines(path: string) returns (r: Result<seq<SourceLine>, Error>)
      requires path in files.lines
      modifies this
      ensures match ExpandLines(files, path, 0, false, old(active))
              case Failed(e) => r == Err(e)
              case Expanded(lines, includes) =>
                r == Ok(lines) && active == old(active) && includeOrder == old(includeOrder) + includes
      decreases Unopened(files, active), 2
    {
      var lines := files.lines[path];
      var expanded: seq<SourceLine> := [];
      var inDefine := false;
      ghost var included: seq<string> := [];
      for n := 0 to |lines|
        invariant active == old(active) && includeOrder == old(includeOrder) + included
        invariant ExpandLines(files, path, 0, false, active) ==
                  Then(Expanded(expanded, included), ExpandLines(files, path, n, inDefine, active))
      {
        ghost var piece := ExpandLine(files, path, n, inDefine, active);
        ThenAssociative(Expanded(expanded, included), piece,
                        ExpandLines(files, path, n + 1, StaysOpen(lines[n], inDefine), active));
        var line := VisitLine(path, n, inDefine);
        if line.Err? {
          return Err(line.error);
        }
        expanded := expanded + line.value;
        included := included + piece.includes;
        inDefine := StaysOpen(lines[n], inDefine);
      }
      assert expanded + [] == expanded && included + [] == included;
      return Ok(expanded);
    }

    /** The body of the line loop. */
    method VisitLine(path: string, n: nat, inDefine: bool) returns (r: Result<seq<SourceLine>, Error>)
      requires path in files.lines && n < |files.lines[path]|
      modifies this
      ensures match ExpandLine(files, path, n, inDefine, old(active))
              case Failed(e) => r == Err(e)
              case Expanded(lines, includes) =>
                r == Ok(lines) && active == old(active) && includeOrder == old(includeOrder) + includes
      decreases Unopened(files, active), 1
    {
      var text := files.lines[path][n];
      var directive := Directive(text, inDefine);
      if directive.None? {
        return Ok([SourceLine(text, path, n + 1)]);
      }
      var target := ResolveInclude(files, path, directive.value);
      if target.Err? {
        return Err(target.error);
      }
      includeOrder := includeOrder + [target.value];
      r := Visit(target.value);
    }
  }

  // ---- independent reference: splicing without a cycle check ----

  /** The lines of a file with every include replaced by its splice, at most `depth` files deep. */
  ghost function Splice(files: Files, path: string, depth: nat): Option<seq<SourceLine>>
    decreases depth, 1, 0
  {
    if depth == 0 || path !in files.lines then None else SpliceLines(files, path, 0, false, depth)
  }

  ghost function SpliceLines(files: Files, path: string, n: nat, inDefine: bool, depth: nat): Option<seq<SourceLine>>
    requires path in files.lines && n <= |files.lines[path]| && depth > 0
    decreases depth, 0, |files.lines[path]| - n
  {
    if n == |files.lines[path]| then Some([])
    else
      var text := files.lines[path][n];
      var directive := Directive(text, inDefine);
      var here :=
        if directive.None? then Some([SourceLine(text, path, n + 1)])
        else
          match ResolveInclude(files, path, directive.value)
          case Err(_) => None
          case Ok(included) => Splice(files, included, depth - 1);
      var rest := SpliceLines(files, path, n + 1, StaysOpen(text, inDefine), depth);
      if here.Some? && rest.Some? then Some(here.value + rest.value) else None
  }

  /** A successful expansion is the plain recursive splice, at every sufficient depth. */
  lemma {:induction false} ExpansionIsSplice(files: Files, path: string, active: seq<string>, depth: nat)
    requires Expand(files, path, active).Expanded? && depth >= Unopened(files, active)
    ensures Splice(files, path, depth) == Some(Expand(files, path, active).lines)
    decreases Unopened(files, active), 0
  {
    OpeningShrinks(files, active, path);
    ExpansionIsSpliceLines(files, path, 0, false, active + [path], depth);
  }

  lemma {:induction false} ExpansionIsSpliceLines(files: Files, path: string, n: nat, inDefine: bool,
                                                  active: seq<string>, depth: nat)
    requires path in files.lines && n <= |files.lines[path]| && depth > Unopened(files, active)
    requires ExpandLines(files, path, n, inDefine, active).Expanded?
    ensures SpliceLines(files, path, n, inDefine, depth) ==
            Some(ExpandLines(files, path, n, inDefine, active).lines)
    decreases Unopened(files, active), |files.lines[path]| - n + 1
  {
    if n < |files.lines[path]| {
      var text := files.lines[path][n];
      ExpansionIsSpliceLines(files, path, n + 1, StaysOpen(text, inDefine), active, depth);
      var directive := Directive(text, inDefine);
      if directive.Some? {
        ExpansionIsSplice(files, ResolveInclude(files, path, directive.value).value, active, depth - 1);
      }
    }
  }

  // ---- cycles ----

  /** The files a file includes, from line `n` on, outside define blocks and recipes. */
  function Includes(files: Files, path: string, n: nat, inDefine: bool): seq<string>
    requires path in files.lines && n <= |files.lines[path]|
    decreases |files.lines[path]| - n
  {
    if n == |files.lines[path]| then []
    else
      var text := files.lines[path][n];
      var directive := Directive(text, inDefine);
      (if directive.Some? && ResolveInclude(files, path, directive.value).Ok?
       then [ResolveInclude(files, path, directive.value).value] else []) +
      Includes(files, path, n + 1, StaysOpen(text, inDefine))
  }

  predicate IncludedBy(files: Files, path: string, included: string) {
    path in files.lines && included in Includes(files, path, 0, false)
  }

  /** Each file of the chain includes the next one. */
  ghost predicate IsChain(files: Files, chain: seq<string>) {
    forall i :: 0 <= i < |chain| - 1 ==> IncludedBy(files, chain[i], chain[i + 1])
  }

  /** Some include chain from `root` comes back to a file that is still open. */
  ghost predicate RevisitsFrom(files: Files, root: string) {
    exists chain :: IsChain(files, chain) && chain != [] && chain[0] == root && !Distinct(chain)
  }

  lemma {:induction false} InnerExpansions(files: Files, path: string, n: nat, inDefine: bool, active: seq<string>)
    requires path in files.lines && n <= |files.lines[path]|
    requires ExpandLines(files, path, n, inDefine, active).Expanded?
    ensures forall q :: q in Includes(files, path, n, inDefine) ==> Expand(files, q, active).Expanded?
    decreases |files.lines[path]| - n
  {
    if n < |files.lines[path]| {
      InnerExpansions(files, path, n + 1, StaysOpen(files.lines[path][n], inDefine), active);
    }
  }

  /** Below a successful expansion no chain repeats a file or meets an open one. */
  lemma {:induction false} SuccessMeansNoRevisit(files: Files, active: seq<string>, chain: seq<string>)
    requires chain != [] && IsChain(files, chain) && Expand(files, chain[0], active).Expanded?
    ensures Distinct(chain) && forall x :: x in chain ==> x !in active
    decreases |chain|
  {
    if |chain| > 1 {
      var path, rest := chain[0], chain[1..];
      assert IncludedBy(files, chain[0], chain[1]);
      InnerExpansions(files, path, 0, false, active + [path]);
      forall i | 0 <= i < |rest| - 1
        ensures IncludedBy(files, rest[i], rest[i + 1])
      {
        assert rest[i] == chain[i + 1] && rest[i + 1] == chain[i + 2];
      }
      SuccessMeansNoRevisit(files, active + [path], rest);
      forall i, j | 0 <= i < j < |chain|
        ensures chain[i] != chain[j]
      {
        assert chain[j] == rest[j - 1] && rest[j - 1] in rest;
        assert i > 0 ==> chain[i] == rest[i - 1];
        assert path in active + [path];
      }
      assert chain == [path] + rest;
    }
  }

  /** A cycle error comes with the chain that revisits an open file. */
  lemma {:induction false} CycleErrorHasChain(files: Files, path: string, active: seq<string>)
    requires Expand(files, path, active).Failed? && Expand(files, path, active).error.Cycle?
    requires IsChain(files, active + [path])
    ensures var chain := Expand(files, path, active).error.chain;
            && active <= chain && |chain| > |active| && chain[|active|] == path
            && IsChain(files, chain) && !Distinct(chain)
    decreases Unopened(files, active), 0
  {
    if path in active {
      var k :| 0 <= k < |active| && active[k] == path;
      assert (active + [path])[k] == (active + [path])[|active|];
    } else {
      OpeningShrinks(files, active, path);
      CycleErrorHasChainLines(files, path, 0, false, active + [path]);
    }
  }

  lemma {:induction false} CycleErrorHasChainLines(files: Files, path: string, n: nat, inDefine: bool,
                                                   active: seq<string>)
    requires path in files.lines && n <= |files.lines[path]|
    requires active != [] && active[|active| - 1] == path && IsChain(files, active)
    requires forall q :: q in Includes(files, path, n, inDefine) ==> IncludedBy(files, path, q)
    requires var e := ExpandLines(files, path, n, inDefine, active); e.Failed? && e.error.Cycle?
    ensures var chain := ExpandLines(files, path, n, inDefine, active).error.chain;
            active <= chain && IsChain(files, chain) && !Distinct(chain)
    decreases Unopened(files, active), |files.lines[path]| - n + 1
  {
    var text := files.lines[path][n];
    var directive := Directive(text, inDefine);
    if ExpandLine(files, path, n, inDefine, active).Failed? {
      var q := ResolveInclude(files, path, directive.value).value;
      assert q in Includes(files, path, n, inDefine);
      ExtendChain(files, active, q);
      CycleErrorHasChain(files, q, active);
    } else {
      CycleErrorHasChainLines(files, path, n + 1, StaysOpen(text, inDefine), active);
    }
  }

  lemma ExtendChain(files: Files, chain: seq<string>, q: string)
    requires chain != [] && IsChain(files, chain) && IncludedBy(files, chain[|chain| - 1], q)
    ensures IsChain(files, chain + [q])
  {
    forall i | 0 <= i < |chain|
      ensures IncludedBy(files, (chain + [q])[i], (chain + [q])[i + 1])
    {
      assert i < |chain| - 1 ==> (chain + [q])[i + 1] == chain[i + 1];
    }
  }

  // ---- includes that do not resolve ----

  predicate DirectiveResolves(files: Files, path: string, text: string, inDefine: bool) {
    var directive := Directive(text, inDefine);
    directive.Some? ==> ResolveInclude(files, path, directive.value).Ok? &&
                        ResolveInclude(files, path, directive.value).value in files.lines
  }

  /** From line `n` on, every include of the file resolves to a file. */
  predicate LinesResolve(files: Files, path: string, n: nat, inDefine: bool)
    requires path in files.lines && n <= |files.lines[path]|
    decreases |files.lines[path]| - n
  {
    n == |files.lines[path]| ||
    (DirectiveResolves(files, path, files.lines[path][n], inDefine) &&
     LinesResolve(files, path, n + 1, StaysOpen(files.lines[path][n], inDefine)))
  }

  /** Some include chain leads from `root` to the file. */
  ghost predicate Reaches(files: Files, root: string, path: string) {
    exists chain :: IsChain(files, chain) && chain != [] && chain[0] == root && chain[|chain| - 1] == path
  }

  /** Every include of every file that the root reaches resolves to a file. */
  ghost predicate ReachableResolve(files: Files, root: string) {
    forall path :: path in files.lines && Reaches(files, root, path) ==> LinesResolve(files, path, 0, false)
  }

  lemma ReachesNext(files: Files, root: string, path: string, q: string)
    requires Reaches(files, root, path) && IncludedBy(files, path, q)
    ensures Reaches(files, root, q)
  {
    var chain :| IsChain(files, chain) && chain != [] && chain[0] == root && chain[|chain| - 1] == path;
    ExtendChain(files, chain, q);
    assert (chain + [q])[0] == root;
  }

  /** When what the root reaches resolves, a cycle is the only error. */
  lemma {:induction false} OnlyCycles(files: Files, root: string, path: string, active: seq<string>)
    requires ReachableResolve(files, root) && Reaches(files, root, path) && path in files.lines
    requires Expand(files, path, active).Failed?
    ensures Expand(files, path, active).error.Cycle?
    decreases Unopened(files, active), 0
  {
    if path !in active {
      OpeningShrinks(files, active, path);
      OnlyCyclesLines(files, root, path, 0, false, active + [path]);
    }
  }

  lemma {:induction false} OnlyCyclesLines(files: Files, root: string, path: string, n: nat, inDefine: bool,
                                           active: seq<string>)
    requires ReachableResolve(files, root) && Reaches(files, root, path)
    requires path in files.lines && n <= |files.lines[path]| && LinesResolve(files, path, n, inDefine)
    requires forall q :: q in Includes(files, path, n, inDefine) ==> IncludedBy(files, path, q)
    requires ExpandLines(files, path, n, inDefine, active).Failed?
    ensures ExpandLines(files, path, n, inDefine, active).error.Cycle?
    decreases Unopened(files, active), |files.lines[path]| - n + 1
  {
    var text := files.lines[path][n];
    if ExpandLine(files, path, n, inDefine, active).Failed? {
      var q := ResolveInclude(files, path, Directive(text, inDefine).value).value;
      assert q in Includes(files, path, n, inDefine);
      ReachesNext(files, root, path, q);
      OnlyCycles(files, root, q, active);
    } else {
      OnlyCyclesLines(files, root, path, n + 1, StaysOpen(text, inDefine), active);
    }
  }

  lemma {:induction false} ExpandedLinesResolve(files: Files, path: string, n: nat, inDefine: bool, active: seq<string>)
    requires path in files.lines && n <= |files.lines[path]|
    requires ExpandLines(files, path, n, inDefine, active).Expanded?
    ensures LinesResolve(files, path, n, inDefine)
    decreases |files.lines[path]| - n
  {
    if n < |files.lines[path]| {
      var text := files.lines[path][n];
      ExpandedLinesResolve(files, path, n + 1, StaysOpen(text, inDefine), active);
      assert ExpandLine(files, path, n, inDefine, active).Expanded?;
      if Directive(text, inDefine).Some? {
        var included := ResolveInclude(files, path, Directive(text, inDefine).value);
        assert included.Ok? && Expand(files, included.value, active).Expanded?;
      }
    }
  }

  /** Below a successful expansion everything resolves. */
  lemma {:induction false} SuccessMeansResolved(files: Files, active: seq<string>, chain: seq<string>)
    requires chain != [] && IsChain(files, chain) && Expand(files, chain[0], active).Expanded?
    ensures chain[|chain| - 1] in files.lines && LinesResolve(files, chain[|chain| - 1], 0, false)
    decreases |chain|
  {
    var path := chain[0];
    if |chain| == 1 {
      ExpandedLinesResolve(files, path, 0, false, active + [path]);
    } else {
      var rest := chain[1..];
      assert IncludedBy(files, chain[0], chain[1]);
      InnerExpansions(files, path, 0, false, active + [path]);
      forall i | 0 <= i < |rest| - 1
        ensures IncludedBy(files, rest[i], rest[i + 1])
      {
        assert rest[i] == chain[i + 1] && rest[i + 1] == chain[i + 2];
      }
      SuccessMeansResolved(files, active + [path], rest);
    }
  }

  /**
   * Expansion fails exactly when the root is missing, an include it reaches does not resolve,
   * or some include chain revisits an open file. When everything it reaches resolves, the
   * error is always the cycle; and a successful expansion is the recursive splice.
   */
  lemma ExpansionFailsIffCyclic(files: Files, root: string)
    ensures Expand(files, root, []).Failed? <==>
            root !in files.lines || !ReachableResolve(files, root) || RevisitsFrom(files, root)
    ensures root in files.lines && ReachableResolve(files, root) ==>
              (Expand(files, root, []).Failed? <==> RevisitsFrom(files, root)) &&
              (Expand(files, root, []).Failed? ==> Expand(files, root, []).error.Cycle?)
    ensures Expand(files, root, []).Expanded? ==>
              forall depth: nat :: depth >= |files.lines| ==>
                Splice(files, root, depth) == Some(Expand(files, root, []).lines)
  {
    if Expand(files, root, []).Failed? {
      if root in files.lines && ReachableResolve(files, root) {
        assert IsChain(files, [root]) && [root][0] == root && Reaches(files, root, root);
        OnlyCycles(files, root, root, []);
        assert [] + [root] == [root];
        CycleErrorHasChain(files, root, []);
      }
    } else {
      forall chain | IsChain(files, chain) && chain != [] && chain[0] == root
        ensures Distinct(chain)
        ensures chain[|chain| - 1] in files.lines && LinesResolve(files, chain[|chain| - 1], 0, false)
      {
        SuccessMeansNoRevisit(files, [], chain);
        SuccessMeansResolved(files, [], chain);
      }
      assert files.lines.Keys - Elements([]) == files.lines.Keys;
      forall depth: nat | depth >= |files.lines|
        ensures Splice(files, root, depth) == Some(Expand(files, root, []).lines)
      {
        ExpansionIsSplice(files, root, [], depth);
      }
    }
  }
}
