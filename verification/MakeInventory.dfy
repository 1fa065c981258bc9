/**
 * make/check_makefile_inventory.py, the parsing loop of `build_inventory`: from expanded
 * lines to statements, rules, variables and macros.
 */
module MakeInventory {
  import opened Wrappers
  import opened RepoPaths
  import opened MakeSyntax

  const TREE_TARGETS: string := "DEVELOPMENT_TREE_ONLY_TARGETS"

  /** A semantic statement; `block` holds its lines, the header first. */
  datatype Statement =
    | Define(name: string, block: seq<string>)
    | Variable(assignment: Assignment, block: seq<string>)
    | Rule(targets: seq<string>, rest: string, block: seq<string>)

  datatype Error = UnterminatedDefine | AmbiguousTargets | NotAList | Unsupported(text: string)

  // ---- statement extents ----

  /** Index of the first "endef" from `i` on, or the number of lines. */
  function EndOfDefine(lines: seq<string>, i: nat): (k: nat)
    requires i <= |lines|
    ensures i <= k <= |lines|
    ensures k < |lines| ==> lines[k] == ENDEF
    ensures forall j :: i <= j < k ==> lines[j] != ENDEF
    decreases |lines| - i
  {
    if i == |lines| || lines[i] == ENDEF then i else EndOfDefine(lines, i + 1)
  }

  predicate Continues(text: string) {
    EndsWith(text, "\\")
  }

  /** The last line of a variable that reaches line `i`. */
  function LastOfVariable(lines: seq<string>, i: nat): (k: nat)
    requires i < |lines|
    ensures i <= k < |lines|
    ensures k + 1 < |lines| ==> !Continues(lines[k])
    ensures forall j :: i <= j < k ==> Continues(lines[j])
    decreases |lines| - i
  {
    if i + 1 == |lines| || !Continues(lines[i]) then i else LastOfVariable(lines, i + 1)
  }

  predicate InRecipe(text: string) {
    IsRecipe(text) || text == ""
  }

  /** End of the recipe and blank lines from `i` on. */
  function EndOfRecipe(lines: seq<string>, i: nat): (k: nat)
    requires i <= |lines|
    ensures i <= k <= |lines|
    ensures k < |lines| ==> !InRecipe(lines[k])
    ensures forall j :: i <= j < k ==> InRecipe(lines[j])
    decreases |lines| - i
  {
    if i == |lines| || !InRecipe(lines[i]) then i else EndOfRecipe(lines, i + 1)
  }

  /** The recipe lines of a range that also holds blank lines. */
  function Recipe(lines: seq<string>): seq<string> {
    Filter(lines, (text: string) => IsRecipe(text))
  }

  // ---- targets ----

  /** `body.replace("\\\n", " ")` for a body given by its lines, up to other whitespace. */
  function JoinContinued(block: seq<string>): string {
    if block == [] then ""
    else if |block| == 1 then block[0]
    else (if Continues(block[0]) then block[0][..|block[0]| - 1] else block[0]) + " " + JoinContinued(block[1..])
  }

  /** The text after the first ":=". */
  function AfterAssign(s: string): Option<string> {
    if s == "" then None
    else if StartsWith(s, ":=") then Some(s[2..])
    else AfterAssign(s[1..])
  }

  function TreeReference(): string {
    "$(" + TREE_TARGETS + ")"
  }

  /** The targets of a rule, with the development-tree list looked up. */
  function Targets(header: Header, done: seq<Statement>): Result<seq<string>, Error> {
    if header.targets != [TreeReference()] then Ok(header.targets)
    else
      var records := VariableBlocks(done, TREE_TARGETS);
      if |records| != 1 then Err(AmbiguousTargets)
      else
        match AfterAssign(JoinContinued(records[0]))
        case None => Err(NotAList)
        case Some(list) => Ok(Words(list))
  }

  // ---- specification: one statement at a time ----

  datatype Parsed = Parsed(statement: Statement, consumed: nat)

  /** The statement that starts with the first line. */
  function ParseOne(lines: seq<string>, done: seq<Statement>): (r: Result<Parsed, Error>)
    requires lines != [] && !IsSkippable(lines[0])
    ensures r.Ok? ==> 1 <= r.value.consumed <= |lines|
  {
    var text := lines[0];
    if DefineName(text).Some? then
      var k := EndOfDefine(lines, 1);
      if k == |lines| then Err(UnterminatedDefine)
      else Ok(Parsed(Define(DefineName(text).value, lines[..k + 1]), k + 1))
    else if AssignmentOf(text).Some? then
      var k := LastOfVariable(lines, 0);
      Ok(Parsed(Variable(AssignmentOf(text).value, lines[..k + 1]), k + 1))
    else if HeaderOf(text).Some? then
      var k := EndOfRecipe(lines, 1);
      var header := HeaderOf(text).value;
      match Targets(header, done)
      case Err(e) => Err(e)
      case Ok(targets) => Ok(Parsed(Rule(targets, header.rest, [text] + Recipe(lines[1..k])), k))
    else Err(Unsupported(text))
  }

  /** All statements: those already parsed, then those of the remaining lines. */
  function Parse(lines: seq<string>, done: seq<Statement>): Result<seq<Statement>, Error>
    decreases |lines|
  {
    if lines == [] then Ok(done)
    else if IsSkippable(lines[0]) then Parse(lines[1..], done)
    else
      match ParseOne(lines, done)
      case Err(e) => Err(e)
      case Ok(p) => Parse(lines[p.consumed..], done + [p.statement])
  }

  // ---- what the dictionaries hold after some statements ----

  type Blocks = map<string, seq<seq<string>>>

  function Lookup(m: Blocks, key: string): seq<seq<string>> {
    if key in m then m[key] else []
  }

  /** The blocks that assign a variable, in order. */
  function VariableBlocks(done: seq<Statement>, name: string): seq<seq<string>> {
    if done == [] then []
    else
      var s := done[|done| - 1];
      VariableBlocks(done[..|done| - 1], name) + if s.Variable? && s.assignment.name == name then [s.block] else []
  }

  function MacroBlocks(done: seq<Statement>, name: string): seq<seq<string>> {
    if done == [] then []
    else
      var s := done[|done| - 1];
      MacroBlocks(done[..|done| - 1], name) + if s.Define? && s.name == name then [s.block] else []
  }

  const PHONY: seq<string> := [".PHONY"]

  /** The rules of a target in order, once for each time a rule lists it; `.PHONY` is not a rule. */
  function RuleBlocks(done: seq<Statement>, target: string): seq<seq<string>> {
    if done == [] then []
    else
      var s := done[|done| - 1];
      RuleBlocks(done[..|done| - 1], target) +
      if s.Rule? && s.targets != PHONY then Repeats(s.targets, target, s.block) else []
  }

  function Repeats(targets: seq<string>, target: string, block: seq<string>): seq<seq<string>> {
    if targets == [] then []
    else Repeats(targets[..|targets| - 1], target, block) + if targets[|targets| - 1] == target then [block] else []
  }

  function PhonyTargets(done: seq<Statement>): set<string> {
    if done == [] then {}
    else
      var s := done[|done| - 1];
      PhonyTargets(done[..|done| - 1]) + if s.Rule? && s.targets == PHONY then set t | t in Words(s.rest) else {}
  }

  /** The first target that is neither special nor a pattern. */
  function FirstGoal(targets: seq<string>): Option<string> {
    if targets == [] then None
    else if !StartsWith(targets[0], ".") && '%' !in targets[0] then Some(targets[0])
    else FirstGoal(targets[1..])
  }

  function DefaultGoal(done: seq<Statement>): Option<string> {
    if done == [] then None
    else
      var earlier, s := DefaultGoal(done[..|done| - 1]), done[|done| - 1];
      if earlier.Some? then earlier
      else if s.Rule? && s.targets != PHONY then FirstGoal(s.targets)
      else None
  }

  datatype Inventory = Inventory(statements: seq<Statement>, variables: Blocks, macros: Blocks, rules: Blocks,
                                 phony: set<string>, defaultGoal: Option<string>)

  /** Every dictionary is the one the statements determine. */
  ghost predicate Consistent(inv: Inventory) {
    && VariablesOk(inv.variables, inv.statements)
    && MacrosOk(inv.macros, inv.statements)
    && RulesOk(inv.rules, inv.statements)
    && inv.phony == PhonyTargets(inv.statements)
    && inv.defaultGoal == DefaultGoal(inv.statements)
  }

  ghost predicate VariablesOk(variables: Blocks, done: seq<Statement>) {
    forall name :: Lookup(variables, name) == VariableBlocks(done, name)
  }

  ghost predicate MacrosOk(macros: Blocks, done: seq<Statement>) {
    forall name :: Lookup(macros, name) == MacroBlocks(done, name)
  }

  ghost predicate RulesOk(rules: Blocks, done: seq<Statement>) {
    forall target :: Lookup(rules, target) == RuleBlocks(done, target)
  }

  // ---- the code ----

  /** The record that one statement leaves in the dictionaries. */
  method Record(inv: Inventory, s: Statement) returns (inv': Inventory)
    requires Consistent(inv)
    ensures Consistent(inv') && inv'.statements == inv.statements + [s]
  {
    ghost var done := inv.statements;
    assert (done + [s])[..|done|] == done;
    var variables, macros, rules, phony, goal := inv.variables, inv.macros, inv.rules, inv.phony, inv.defaultGoal;
    match s {
      case Define(name, block) =>
        macros := macros[name := Lookup(macros, name) + [block]];
      case Variable(a, block) =>
        variables := variables[a.name := Lookup(variables, a.name) + [block]];
      case Rule(targets, rest, block) =>
        if targets == PHONY {
          phony := phony + set t | t in Words(rest);
        } else {
          goal := if goal.None? then FirstGoal(targets) else goal;
          rules := RecordRule(rules, targets, block);
        }
    }
    VariablesStep(inv.variables, done, s, variables);
    MacrosStep(inv.macros, done, s, macros);
    RulesStep(inv.rules, done, s, rules);
    inv' := Inventory(inv.statements + [s], variables, macros, rules, phony, goal);
  }

  lemma VariablesStep(before: Blocks, done: seq<Statement>, s: Statement, after: Blocks)
    requires VariablesOk(before, done)
    requires after == if s.Variable? then before[s.assignment.name := Lookup(before, s.assignment.name) + [s.block]]
                      else before
    ensures VariablesOk(after, done + [s])
  {
    assert (done + [s])[..|done|] == done;
  }

  lemma MacrosStep(before: Blocks, done: seq<Statement>, s: Statement, after: Blocks)
    requires MacrosOk(before, done)
    requires after == if s.Define? then before[s.name := Lookup(before, s.name) + [s.block]] else before
    ensures MacrosOk(after, done + [s])
  {
    assert (done + [s])[..|done|] == done;
  }

  lemma RulesStep(before: Blocks, done: seq<Statement>, s: Statement, after: Blocks)
    requires RulesOk(before, done)
    requires if s.Rule? && s.targets != PHONY then Filed(after, before, s.targets, s.block) else after == before
    ensures RulesOk(after, done + [s])
  {
    assert (done + [s])[..|done|] == done;
  }

  /** `after` is `before` with the block filed under each target. */
  ghost predicate Filed(after: Blocks, before: Blocks, targets: seq<string>, block: seq<string>) {
    forall t :: Lookup(after, t) == Lookup(before, t) + Repeats(targets, t, block)
  }

  lemma FiledStep(after: Blocks, before: Blocks, targets: seq<string>, x: string, block: seq<string>)
    requires Filed(after, before, targets, block)
    ensures Filed(after[x := Lookup(after, x) + [block]], before, targets + [x], block)
  {
    assert (targets + [x])[..|targets|] == targets;
  }

  /** The loop that files a rule under each of its targets. */
  method RecordRule(rules: Blocks, targets: seq<string>, block: seq<string>) returns (rules': Blocks)
    ensures Filed(rules', rules, targets, block)
  {
    rules' := rules;
    for i := 0 to |targets|
      invariant Filed(rules', rules, targets[..i], block)
    {
      FiledStep(rules', rules, targets[..i], targets[i], block);
      TakeNext(targets, i);
      rules' := rules'[targets[i] := Lookup(rules', targets[i]) + [block]];
    }
    TakeAll(targets);
  }

  /** The branches of the loop body: the statement at the start of `rest`. */
  method ReadStatement(rest: seq<string>, statements: seq<Statement>) returns (r: Result<Parsed, Error>)
    requires rest != [] && !IsSkippable(rest[0])
    ensures r == ParseOne(rest, statements)
  {
    var text := rest[0];
    if DefineName(text).Some? {
      var k := 1;
      while k < |rest| && rest[k] != ENDEF
        invariant 1 <= k <= |rest| && EndOfDefine(rest, 1) == EndOfDefine(rest, k)
      {
        k := k + 1;
      }
      if k >= |rest| {
        return Err(UnterminatedDefine);
      }
      return Ok(Parsed(Define(DefineName(text).value, rest[..k + 1]), k + 1));
    }
    if AssignmentOf(text).Some? {
      var k := 1;
      while Continues(rest[k - 1]) && k < |rest|
        invariant 1 <= k <= |rest| && LastOfVariable(rest, 0) == LastOfVariable(rest, k - 1)
      {
        k := k + 1;
      }
      return Ok(Parsed(Variable(AssignmentOf(text).value, rest[..k]), k));
    }
    if HeaderOf(text).Some? {
      var targets := Targets(HeaderOf(text).value, statements);
      if targets.Err? {
        return Err(targets.error);
      }
      var recipe, k := ReadRecipe(rest);
      return Ok(Parsed(Rule(targets.value, HeaderOf(text).value.rest, [text] + recipe), k));
    }
    return Err(Unsupported(text));
  }

  /** The recipe loop: tab lines are kept, blank lines skipped, anything else ends it. */
  method ReadRecipe(rest: seq<string>) returns (recipe: seq<string>, k: nat)
    requires rest != []
    ensures k == EndOfRecipe(rest, 1) && recipe == Recipe(rest[1..k])
  {
    recipe, k := [], 1;
    while k < |rest| && InRecipe(rest[k])
      invariant 1 <= k <= |rest| && EndOfRecipe(rest, 1) == EndOfRecipe(rest, k)
      invariant recipe == Recipe(rest[1..k])
    {
      FilterAppend(rest[1..k], rest[k], (text: string) => IsRecipe(text));
      assert rest[1..k + 1] == rest[1..k] + [rest[k]];
      if IsRecipe(rest[k]) {
        recipe := recipe + [rest[k]];
      }
      k := k + 1;
    }
  }

  /** The next statement is read and recorded. */
  method Advance(rest: seq<string>, inv: Inventory) returns (r: Result<(Inventory, nat), Error>)
    requires rest != [] && !IsSkippable(rest[0]) && Consistent(inv)
    ensures match ParseOne(rest, inv.statements)
            case Err(e) => r == Err(e)
            case Ok(p) => r.Ok? && r.value.1 == p.consumed && Consistent(r.value.0) &&
                          r.value.0.statements == inv.statements + [p.statement]
  {
    var parsed := ReadStatement(rest, inv.statements);
    if parsed.Err? {
      return Err(parsed.error);
    }
    var inv' := Record(inv, parsed.value.statement);
    return Ok((inv', parsed.value.consumed));
  }

  lemma DropAgain(lines: seq<string>, index: nat, k: nat)
    requires index + k <= |lines|
    ensures lines[index..][k..] == lines[index + k..]
  {
  }

  /** The parsing loop of `build_inventory`; `rest` are the lines from `index` on. */
  method BuildInventory(lines: seq<string>) returns (r: Result<Inventory, Error>)
    ensures match Parse(lines, [])
            case Err(e) => r == Err(e)
            case Ok(statements) => r.Ok? && r.value.statements == statements && Consistent(r.value)
  {
    var inv := Inventory([], map[], map[], map[], {}, None);
    var index := 0;
    ghost var rest := lines;
    while index < |lines|
      invariant 0 <= index <= |lines| && rest == lines[index..]
      invariant Parse(lines, []) == Parse(rest, inv.statements)
      invariant Consistent(inv)
    {
      if IsSkippable(lines[index]) {
        DropAgain(lines, index, 1);
        rest := rest[1..];
        index := index + 1;
        continue;
      }
      var next := Advance(lines[index..], inv);
      if next.Err? {
        return Err(next.error);
      }
      DropAgain(lines, index, next.value.1);
      rest := rest[next.value.1..];
      inv, index := next.value.0, index + next.value.1;
    }
    return Ok(inv);
  }

  // ---- the parse loses nothing ----

  /** The lines of all statements, in order. */
  function Flatten(statements: seq<Statement>): seq<string> {
    if statements == [] then [] else statements[0].block + Flatten(statements[1..])
  }

  /** `kept` is `lines` without some of its blank and comment lines. */
  ghost predicate Pruned(lines: seq<string>, kept: seq<string>) {
    if lines == [] then kept == []
    else
      || (kept != [] && kept[0] == lines[0] && Pruned(lines[1..], kept[1..]))
      || (IsSkippable(lines[0]) && Pruned(lines[1..], kept))
  }

  lemma {:induction false} PrunedSame(lines: seq<string>)
    ensures Pruned(lines, lines)
  {
    if lines != [] {
      PrunedSame(lines[1..]);
    }
  }

  lemma {:induction false} PrunedConcat(a: seq<string>, keptA: seq<string>, b: seq<string>, keptB: seq<string>)
    requires Pruned(a, keptA) && Pruned(b, keptB)
    ensures Pruned(a + b, keptA + keptB)
  {
    if a == [] {
      assert a + b == b && keptA + keptB == keptB;
    } else {
      assert (a + b)[1..] == a[1..] + b;
      if keptA != [] && keptA[0] == a[0] && Pruned(a[1..], keptA[1..]) {
        assert (keptA + keptB)[1..] == keptA[1..] + keptB;
        PrunedConcat(a[1..], keptA[1..], b, keptB);
      } else {
        PrunedConcat(a[1..], keptA, b, keptB);
      }
    }
  }

  lemma {:induction false} PrunedRecipe(lines: seq<string>)
    requires forall text :: text in lines ==> InRecipe(text)
    ensures Pruned(lines, Recipe(lines))
  {
    if lines != [] {
      PrunedRecipe(lines[1..]);
      assert lines[0] in lines;
    }
  }

  /** A statement keeps all of its lines but blank ones. */
  lemma ParseOneLossless(lines: seq<string>, done: seq<Statement>)
    requires lines != [] && !IsSkippable(lines[0]) && ParseOne(lines, done).Ok?
    ensures var p := ParseOne(lines, done).value; Pruned(lines[..p.consumed], p.statement.block)
  {
    var p := ParseOne(lines, done).value;
    if p.statement.Rule? {
      var k := EndOfRecipe(lines, 1);
      PrunedRecipe(lines[1..k]);
      PrunedSame([lines[0]]);
      assert lines[..k] == [lines[0]] + lines[1..k];
      PrunedConcat([lines[0]], [lines[0]], lines[1..k], Recipe(lines[1..k]));
    } else {
      PrunedSame(lines[..p.consumed]);
    }
  }

  /**
   * The first `n` lines are one whole statement: a define block or a variable loses nothing,
   * and a rule, which goes on as long as lines are blank or recipe lines, only blank lines.
   */
  ghost predicate Keeps(lines: seq<string>, n: nat, s: Statement)
    requires 1 <= n <= |lines|
  {
    match s
    case Define(_, block) => block == lines[..n] && lines[n - 1] == ENDEF
    case Variable(_, block) => block == lines[..n] && (n < |lines| ==> !Continues(lines[n - 1]))
    case Rule(_, _, block) => block == WithoutBlank(lines[..n]) && (n < |lines| ==> !InRecipe(lines[n]))
  }

  function WithoutBlank(lines: seq<string>): seq<string> {
    Filter(lines, (text: string) => text != "")
  }

  /** Between the statements, and nowhere else, blank and comment lines are skipped. */
  ghost predicate Covers(lines: seq<string>, statements: seq<Statement>) {
    if lines == [] then statements == []
    else if IsSkippable(lines[0]) then Covers(lines[1..], statements)
    else
      statements != [] &&
      exists n :: 1 <= n <= |lines| && Keeps(lines, n, statements[0]) && Covers(lines[n..], statements[1..])
  }

  lemma ParseOneKeeps(lines: seq<string>, done: seq<Statement>)
    requires lines != [] && !IsSkippable(lines[0]) && ParseOne(lines, done).Ok?
    ensures var p := ParseOne(lines, done).value; Keeps(lines, p.consumed, p.statement)
  {
    var p := ParseOne(lines, done).value;
    if p.statement.Rule? {
      var k := EndOfRecipe(lines, 1);
      assert lines[..k] == [lines[0]] + lines[1..k] && lines[..k][1..] == lines[1..k];
      forall text | text in lines[1..k]
        ensures IsRecipe(text) <==> text != ""
      {
        var j :| 0 <= j < k - 1 && lines[1..k][j] == text;
        assert InRecipe(lines[j + 1]);
      }
      FilterSame(lines[1..k], (text: string) => IsRecipe(text), (text: string) => text != "");
    }
  }

  /** The statements added by a successful parse. */
  lemma {:induction false} ParseExtends(lines: seq<string>, done: seq<Statement>)
    requires Parse(lines, done).Ok?
    ensures done <= Parse(lines, done).value
    decreases |lines|
  {
    if lines != [] {
      if IsSkippable(lines[0]) {
        ParseExtends(lines[1..], done);
      } else {
        var p := ParseOne(lines, done).value;
        ParseExtends(lines[p.consumed..], done + [p.statement]);
      }
    }
  }

  /** The new statements of a successful parse. */
  ghost function NewStatements(lines: seq<string>, done: seq<Statement>): seq<Statement>
    requires Parse(lines, done).Ok?
  {
    ParseExtends(lines, done);
    Parse(lines, done).value[|done|..]
  }

  lemma SuffixSplit(all: seq<Statement>, done: seq<Statement>, x: Statement)
    requires done + [x] <= all
    ensures all[|done|..] == [x] + all[|done| + 1..]
  {
    assert all[|done|] == (done + [x])[|done|];
  }

  lemma NewStatementsStep(lines: seq<string>, done: seq<Statement>)
    requires lines != [] && Parse(lines, done).Ok?
    ensures IsSkippable(lines[0]) ==> NewStatements(lines, done) == NewStatements(lines[1..], done)
    ensures !IsSkippable(lines[0]) ==>
              var p := ParseOne(lines, done).value;
              NewStatements(lines, done) == [p.statement] + NewStatements(lines[p.consumed..], done + [p.statement])
  {
    if !IsSkippable(lines[0]) {
      var p := ParseOne(lines, done).value;
      ParseExtends(lines[p.consumed..], done + [p.statement]);
      SuffixSplit(Parse(lines, done).value, done, p.statement);
    }
  }

  /** Only blank and comment lines are lost between the expanded lines and the statements. */
  lemma {:induction false} ParseLossless(lines: seq<string>, done: seq<Statement>)
    requires Parse(lines, done).Ok?
    ensures Pruned(lines, Flatten(NewStatements(lines, done)))
    ensures Covers(lines, NewStatements(lines, done))
    decreases |lines|
  {
    if lines != [] {
      NewStatementsStep(lines, done);
      if IsSkippable(lines[0]) {
        ParseLossless(lines[1..], done);
      } else {
        var p := ParseOne(lines, done).value;
        var rest := NewStatements(lines[p.consumed..], done + [p.statement]);
        ParseLossless(lines[p.consumed..], done + [p.statement]);
        ParseOneLossless(lines, done);
        ParseOneKeeps(lines, done);
        assert lines == lines[..p.consumed] + lines[p.consumed..];
        PrunedConcat(lines[..p.consumed], p.statement.block, lines[p.consumed..], Flatten(rest));
        assert ([p.statement] + rest)[1..] == rest;
      }
    }
  }

  // ---- parsing the statements again ----

  lemma EndOfDefineUnique(lines: seq<string>, i: nat, k: nat)
    requires i <= k < |lines| && lines[k] == ENDEF && forall j :: i <= j < k ==> lines[j] != ENDEF
    ensures EndOfDefine(lines, i) == k
  {
  }

  lemma LastOfVariableUnique(lines: seq<string>, k: nat)
    requires k < |lines| && (k + 1 < |lines| ==> !Continues(lines[k]))
    requires forall j :: 0 <= j < k ==> Continues(lines[j])
    ensures LastOfVariable(lines, 0) == k
  {
  }

  lemma EndOfRecipeUnique(lines: seq<string>, k: nat)
    requires 1 <= k <= |lines| && (k < |lines| ==> !InRecipe(lines[k]))
    requires forall j :: 1 <= j < k ==> InRecipe(lines[j])
    ensures EndOfRecipe(lines, 1) == k
  {
  }

  lemma {:induction false} RecipeOfRecipe(lines: seq<string>)
    requires forall text :: text in lines ==> IsRecipe(text)
    ensures Recipe(lines) == lines
  {
    if lines != [] {
      assert lines[0] in lines;
      RecipeOfRecipe(lines[1..]);
    }
  }

  /** The lines of further statements are empty or begin with a line that opens a statement. */
  ghost predicate StartsClean(lines: seq<string>) {
    lines == [] || OpensStatement(lines[0])
  }

  lemma CleanIsNoRecipe(lines: seq<string>)
    requires StartsClean(lines) && lines != []
    ensures !InRecipe(lines[0])
  {
    if IsRecipe(lines[0]) {
      RecipeOpensNothing(lines[0]);
    }
  }

  /** A recipe without blank lines ends where the next statement begins. */
  lemma ReparseRecipe(again: seq<string>, recipe: seq<string>, later: seq<string>)
    requires again != [] && again[1..] == recipe + later
    requires (forall text :: text in recipe ==> IsRecipe(text)) && StartsClean(later)
    ensures EndOfRecipe(again, 1) == 1 + |recipe|
    ensures Recipe(again[1..1 + |recipe|]) == recipe
  {
    var n := |recipe|;
    assert forall j :: 0 <= j < |recipe + later| ==> again[1..][j] == again[j + 1];
    if later != [] {
      CleanIsNoRecipe(later);
      assert again[1 + n] == later[0];
    }
    forall j | 1 <= j < 1 + n
      ensures InRecipe(again[j])
    {
      assert again[j] == recipe[j - 1] && recipe[j - 1] in recipe;
    }
    EndOfRecipeUnique(again, 1 + n);
    RecipeOfRecipe(recipe);
    assert again[1..1 + n] == recipe;
  }

  /** The statement that `lines` parse to is what its own lines, followed by `later`, parse to. */
  ghost predicate Reparses(lines: seq<string>, done: seq<Statement>, later: seq<string>)
    requires lines != [] && !IsSkippable(lines[0]) && ParseOne(lines, done).Ok?
  {
    var s := ParseOne(lines, done).value.statement;
    && s.block != [] && s.block[0] == lines[0]
    && ParseOne(s.block + later, done) == Ok(Parsed(s, |s.block|))
  }

  /**
   * A statement's own lines, followed by other statements' lines, parse to the same statement.
   * A variable still open at the end of the lines has nothing after it.
   */
  lemma ReparseOne(lines: seq<string>, done: seq<Statement>, later: seq<string>)
    requires lines != [] && !IsSkippable(lines[0]) && ParseOne(lines, done).Ok?
    requires StartsClean(later)
    requires ParseOne(lines, done).value.consumed == |lines| ==> later == []
    ensures Reparses(lines, done, later) && OpensStatement(lines[0])
  {
    var p := ParseOne(lines, done).value;
    if p.statement.Rule? {
      ReparseRule(lines, done, later);
    } else {
      var again := p.statement.block + later;
      assert again[..|p.statement.block|] == p.statement.block;
      if p.statement.Define? {
        ReparseDefine(lines, again);
      } else {
        ReparseVariable(lines, again, later);
      }
    }
  }

  lemma ReparseRule(lines: seq<string>, done: seq<Statement>, later: seq<string>)
    requires lines != [] && !IsSkippable(lines[0]) && ParseOne(lines, done).Ok?
    requires ParseOne(lines, done).value.statement.Rule? && StartsClean(later)
    ensures Reparses(lines, done, later)
  {
    var p := ParseOne(lines, done).value;
    var recipe := Recipe(lines[1..p.consumed]);
    var again := p.statement.block + later;
    assert p.statement.block == [lines[0]] + recipe && again[1..] == recipe + later;
    ReparseRecipe(again, recipe, later);
  }

  lemma ReparseDefine(lines: seq<string>, again: seq<string>)
    requires lines != [] && EndOfDefine(lines, 1) < |lines|
    requires lines[..EndOfDefine(lines, 1) + 1] <= again
    ensures EndOfDefine(again, 1) == EndOfDefine(lines, 1)
  {
    var k := EndOfDefine(lines, 1);
    assert forall j :: 0 <= j <= k ==> again[j] == lines[..k + 1][j];
    EndOfDefineUnique(again, 1, k);
  }

  lemma ReparseVariable(lines: seq<string>, again: seq<string>, later: seq<string>)
    requires lines != [] && again == lines[..LastOfVariable(lines, 0) + 1] + later
    requires LastOfVariable(lines, 0) + 1 == |lines| ==> later == []
    ensures LastOfVariable(again, 0) == LastOfVariable(lines, 0)
  {
    var k := LastOfVariable(lines, 0);
    assert forall j :: 0 <= j <= k ==> again[j] == lines[..k + 1][j];
    LastOfVariableUnique(again, k);
  }

  /** Parsing the concatenated statement bodies yields the same statements. */
  lemma {:induction false} ReparseSame(lines: seq<string>, done: seq<Statement>)
    requires Parse(lines, done).Ok?
    ensures StartsClean(Flatten(NewStatements(lines, done)))
    ensures Parse(Flatten(NewStatements(lines, done)), done) == Parse(lines, done)
    decreases |lines|
  {
    if lines == [] {
    } else if IsSkippable(lines[0]) {
      NewStatementsStep(lines, done);
      ReparseSame(lines[1..], done);
    } else {
      NewStatementsStep(lines, done);
      var p := ParseOne(lines, done).value;
      var done' := done + [p.statement];
      var rest := NewStatements(lines[p.consumed..], done');
      ReparseSame(lines[p.consumed..], done');
      assert ([p.statement] + rest)[1..] == rest;
      var later := Flatten(rest);
      if p.consumed == |lines| {
        assert lines[p.consumed..] == [];
      }
      ReparseOne(lines, done, later);
      assert (p.statement.block + later)[|p.statement.block|..] == later;
    }
  }

  /** Nothing but blank and comment lines is lost, and the statements are a fixed point. */
  lemma InventoryLosesNothing(lines: seq<string>)
    requires Parse(lines, []).Ok?
    ensures var statements := Parse(lines, []).value;
            && Pruned(lines, Flatten(statements)) && Covers(lines, statements)
            && Parse(Flatten(statements), []) == Ok(statements)
  {
    ParseLossless(lines, []);
    ReparseSame(lines, []);
  }
}
