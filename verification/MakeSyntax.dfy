/** make/check_makefile_inventory.py: the line patterns, as recognisers over one line of text. */
module MakeSyntax {
  import opened Wrappers
  import opened RepoPaths

  const DEFINE: string := "define"
  const INCLUDE: string := "include"
  const ENDEF: string := "endef"
  const OVERRIDE: string := "override"

  /** `text.startswith("\t")`: a recipe line. */
  predicate IsRecipe(text: string) {
    text != "" && text[0] == '\t'
  }

  /** A line the parser skips between statements: empty, or a comment. */
  predicate IsSkippable(text: string) {
    text == "" || (StripLeft(text) != "" && StripLeft(text)[0] == '#')
  }

  predicate AllSpace(s: string) {
    forall c :: c in s ==> IsSpace(c)
  }

  /** The longest prefix without whitespace. */
  function Word(s: string): (w: string)
    ensures w <= s
  {
    if s == "" || IsSpace(s[0]) then "" else [s[0]] + Word(s[1..])
  }

  /** `str.split()`. */
  function Words(s: string): seq<string>
    decreases |s|
  {
    if s == "" then []
    else if IsSpace(s[0]) then Words(s[1..])
    else
      var w := Word(s);
      [w] + Words(s[|w|..])
  }

  /** What follows `keyword` and at least one blank. */
  function AfterKeyword(text: string, keyword: string): Option<string> {
    if StartsWith(text, keyword) && |text| > |keyword| && IsSpace(text[|keyword|]) then Some(text[|keyword|..])
    else None
  }

  /** `DEFINE_RE`: the macro name of a `define` line. */
  function DefineName(text: string): Option<string> {
    match AfterKeyword(text, DEFINE)
    case None => None
    case Some(rest) =>
      var body := StripLeft(rest);
      var name := Word(body);
      if name != "" && AllSpace(body[|name|..]) then Some(name) else None
  }

  /** `INCLUDE_RE`, with the token already stripped. */
  function IncludeToken(text: string): Option<string> {
    match AfterKeyword(text, INCLUDE)
    case None => None
    case Some(rest) => if Strip(rest) != "" || |rest| >= 2 then Some(Strip(rest)) else None
  }

  predicate IsIdentStart(c: char) {
    'A' <= c <= 'Z' || 'a' <= c <= 'z' || c == '_'
  }

  function Ident(s: string): (w: string)
    ensures w <= s
  {
    if s == "" || !(IsIdentStart(s[0]) || '0' <= s[0] <= '9') then "" else [s[0]] + Ident(s[1..])
  }

  datatype Assignment = Assignment(directive: string, name: string, operator: string)

  /** An identifier, blanks, and an assignment operator. */
  function PlainAssignment(text: string, directive: string): Option<Assignment> {
    var name := Ident(text);
    if name == "" || !IsIdentStart(name[0]) then None
    else
      var rest := StripLeft(text[|name|..]);
      if StartsWith(rest, "=") then Some(Assignment(directive, name, "="))
      else if |rest| >= 2 && rest[0] in {':', '+', '?'} && rest[1] == '=' then
        Some(Assignment(directive, name, rest[..2]))
      else None
  }

  /** `VARIABLE_RE`; a line `override = x` assigns a variable called override. */
  function AssignmentOf(text: string): Option<Assignment> {
    var directed := match AfterKeyword(text, OVERRIDE)
                    case None => None
                    case Some(rest) => PlainAssignment(StripLeft(rest), OVERRIDE);
    if directed.Some? then directed else PlainAssignment(text, "")
  }

  /** Index of the colon that ends the targets of a rule: no ':' or '=' between the first character and it. */
  function RuleColon(text: string, i: nat): Option<nat>
    requires 1 <= i
    decreases |text| - i
  {
    if i >= |text| || text[i] == '=' then None
    else if text[i] == ':' then Some(i)
    else RuleColon(text, i + 1)
  }

  datatype Header = Header(targets: seq<string>, rest: string)

  /** `RULE_RE`. */
  function HeaderOf(text: string): Option<Header> {
    if text == "" || text[0] == '#' || text[0] == '\t' then None
    else
      match RuleColon(text, 1)
      case None => None
      case Some(i) => RuleColonBound(text, 1); Some(Header(Words(text[..i]), text[i + 1..]))
  }

  lemma RuleColonBound(text: string, i: nat)
    requires 1 <= i
    ensures RuleColon(text, i).Some? ==> i <= RuleColon(text, i).value < |text|
    decreases |text| - i
  {
    if i < |text| && text[i] != '=' && text[i] != ':' {
      RuleColonBound(text, i + 1);
    }
  }

  /** The line opens a statement. */
  predicate OpensStatement(text: string) {
    !IsSkippable(text) && (DefineName(text).Some? || AssignmentOf(text).Some? || HeaderOf(text).Some?)
  }

  /** A recipe line never opens a statement. */
  lemma RecipeOpensNothing(text: string)
    requires IsRecipe(text)
    ensures !OpensStatement(text)
  {
    assert DEFINE[0] == 'd' && OVERRIDE[0] == 'o';
    assert Ident(text) == "";
  }
}
