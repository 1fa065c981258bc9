/**
 * scripts/check_comment_policy.py: scanning source files (`scan_sources`) and spending the
 * exception budgets on what the scanner finds (`allowed`).
 */
module PolicyExceptions {
  import opened Wrappers
  import opened RepoPaths
  import opened PolicyFindings

  /**
   * One reviewed exception. `expires` is a day number; `review` stands for the
   * necessity, alternative, owner and removal texts, which count for equality only.
   */
  datatype Exemption = Exemption(path: string, symbol: string, text: string, kind: string, payload: string,
                                 findingKind: string, count: nat, expires: Option<int>, consumer: string,
                                 review: string)

  /** `exception_identity`. */
  function IdentityOf(e: Exemption): (string, string, string, string, string, string) {
    (e.path, e.symbol, e.text, e.kind, e.payload, e.findingKind)
  }

  predicate Lapsed(e: Exemption, today: int) {
    e.kind == "directive" && e.expires.Some? && e.expires.value < today
  }

  /** No lapsed entry has this entry's identity. */
  predicate Live(e: Exemption, exemptions: seq<Exemption>, today: int) {
    forall x :: x in exemptions && Lapsed(x, today) ==> IdentityOf(x) != IdentityOf(e)
  }

  /** The load-time checks: no identity twice, every count positive, and only two kinds of findings. */
  predicate LoadedExceptions(exemptions: seq<Exemption>) {
    && (forall i, j :: 0 <= i < j < |exemptions| ==> IdentityOf(exemptions[i]) != IdentityOf(exemptions[j]))
    && (forall e :: e in exemptions ==>
                      e.count >= 1 && (e.findingKind == "comment" || e.findingKind == "payload-error"))
  }

  /** The entry describes the finding. */
  predicate Describes(e: Exemption, f: Finding) {
    && f.path == e.path && f.symbol == e.symbol && f.text == e.text && f.kind == e.findingKind
    && (e.kind == "fixture" ==> f.payload == e.payload)
  }

  // ---- the built-in decision on shebangs and encoding cookies ----

  datatype BuiltIn = Permit | Forbid | Undecided

  const SHELLS: set<string> := {"bash", "sh", "zsh", "ksh", "python3", "node"}

  predicate IsShebang(text: string) {
    exists prefix :: prefix in {"#!/usr/bin/env ", "#!/bin/", "#!/usr/bin/"} &&
      StartsWith(text, prefix) && text[|prefix|..] in SHELLS
  }

  predicate IsCodecChar(c: char) {
    'a' <= c <= 'z' || 'A' <= c <= 'Z' || '0' <= c <= '9' || c == '_' || c == '.' || c == '-'
  }

  function CodecName(s: string): (name: string)
    ensures name <= s
  {
    if s == "" || !IsCodecChar(s[0]) then "" else [s[0]] + CodecName(s[1..])
  }

  function After(s: string, prefix: string): string {
    if StartsWith(s, prefix) then s[|prefix|..] else s
  }

  /** The codec that an encoding cookie names, if the whole text is one. */
  function Cookie(text: string): Option<string> {
    if !StartsWith(text, "# ") then None
    else
      var body := After(text[2..], "-*- ");
      if !StartsWith(body, "coding:") && !StartsWith(body, "coding=") then None
      else
        var rest := After(body[7..], " ");
        var name := CodecName(rest);
        if name != "" && (rest[|name|..] == "" || rest[|name|..] == " -*-") then Some(name) else None
  }

  /** The part of `allowed` before the exceptions; `other` says that a codec is not UTF-8. */
  function BuiltInOf(f: Finding, language: string, firstLine: string, other: string -> bool): BuiltIn {
    if f.kind != "comment" || f.symbol != "" then Undecided
    else if language in {"python", "bash", "javascript", "unsupported"} && f.line == 1 && IsShebang(f.text) then Permit
    else if language == "python" && Cookie(f.text).Some? && f.line <= 2 &&
            (f.line == 1 || Strip(firstLine) == "" || StartsWith(firstLine, "#")) then
      if other(Cookie(f.text).value) then Permit else Forbid
    else Undecided
  }

  // ---- what becomes of a list of findings ----

  /** A finding with the built-in decision on it. */
  datatype Seen = Seen(finding: Finding, builtIn: BuiltIn)

  datatype Fate = Permitted | Forbidden | Absorbed(entry: nat) | Unexcused

  predicate Shows(fate: Fate) {
    fate == Forbidden || fate == Unexcused
  }

  /** How many findings entry `k` absorbed. */
  function Spent(fates: seq<Fate>, k: nat): nat {
    if fates == [] then 0 else Spent(fates[..|fates| - 1], k) + if fates[|fates| - 1] == Absorbed(k) then 1 else 0
  }

  predicate CanAbsorb(exemptions: seq<Exemption>, today: int, k: nat, f: Finding)
    requires k < |exemptions|
  {
    Live(exemptions[k], exemptions, today) && Describes(exemptions[k], f)
  }

  /** Entry `k` could absorb the finding and still has budget after the earlier findings. */
  predicate Open(exemptions: seq<Exemption>, today: int, k: nat, f: Finding, earlier: seq<Fate>)
    requires k < |exemptions|
  {
    CanAbsorb(exemptions, today, k, f) && Spent(earlier, k) < exemptions[k].count
  }

  /** The first open entry from `k` on absorbs the finding. */
  function FirstOpen(exemptions: seq<Exemption>, today: int, f: Finding, earlier: seq<Fate>, k: nat): (fate: Fate)
    requires k <= |exemptions|
    ensures fate.Unexcused? || (fate.Absorbed? && k <= fate.entry < |exemptions|)
    ensures fate.Absorbed? ==> Open(exemptions, today, fate.entry, f, earlier)
    ensures forall j: nat :: k <= j < (if fate.Absorbed? then fate.entry else |exemptions|) ==>
                               !Open(exemptions, today, j, f, earlier)
    decreases |exemptions| - k
  {
    if k == |exemptions| then Unexcused
    else if Open(exemptions, today, k, f, earlier) then Absorbed(k)
    else FirstOpen(exemptions, today, f, earlier, k + 1)
  }

  /** `allowed` on one finding, given what became of the earlier ones. */
  function FateOf(s: Seen, exemptions: seq<Exemption>, today: int, earlier: seq<Fate>): Fate {
    match s.builtIn
    case Permit => Permitted
    case Forbid => Forbidden
    case Undecided => FirstOpen(exemptions, today, s.finding, earlier, 0)
  }

  function Fates(seen: seq<Seen>, exemptions: seq<Exemption>, today: int): (fates: seq<Fate>)
    ensures |fates| == |seen|
  {
    if seen == [] then []
    else
      var earlier := Fates(seen[..|seen| - 1], exemptions, today);
      earlier + [FateOf(seen[|seen| - 1], exemptions, today, earlier)]
  }

  /** The findings that are reported: those neither permitted nor absorbed. */
  function Reported(seen: seq<Seen>, exemptions: seq<Exemption>, today: int): seq<Finding> {
    if seen == [] then []
    else
      var init, last := seen[..|seen| - 1], seen[|seen| - 1];
      Reported(init, exemptions, today) +
      if Shows(FateOf(last, exemptions, today, Fates(init, exemptions, today))) then [last.finding] else []
  }

  lemma FatesAppend(seen: seq<Seen>, s: Seen, exemptions: seq<Exemption>, today: int)
    ensures var earlier := Fates(seen, exemptions, today); var fate := FateOf(s, exemptions, today, earlier);
            && Fates(seen + [s], exemptions, today) == earlier + [fate]
            && Reported(seen + [s], exemptions, today) ==
               Reported(seen, exemptions, today) + if Shows(fate) then [s.finding] else []
  {
    assert (seen + [s])[..|seen|] == seen;
  }

  lemma SpentAppend(fates: seq<Fate>, fate: Fate, k: nat)
    ensures Spent(fates + [fate], k) == Spent(fates, k) + if fate == Absorbed(k) then 1 else 0
  {
    assert (fates + [fate])[..|fates|] == fates;
  }

  // ---- what the budgets guarantee ----

  /** No exception absorbs more findings than its count, and a lapsed one absorbs none. */
  lemma {:induction false} BudgetsHold(seen: seq<Seen>, exemptions: seq<Exemption>, today: int, k: nat)
    requires k < |exemptions|
    ensures var fates := Fates(seen, exemptions, today);
            && Spent(fates, k) <= exemptions[k].count
            && (!Live(exemptions[k], exemptions, today) ==> Spent(fates, k) == 0)
  {
    if seen != [] {
      var init, last := seen[..|seen| - 1], seen[|seen| - 1];
      BudgetsHold(init, exemptions, today, k);
      var earlier := Fates(init, exemptions, today);
      SpentAppend(earlier, FateOf(last, exemptions, today, earlier), k);
    }
  }

  /** The fates of a prefix are a prefix of the fates. */
  lemma {:induction false} FatesOfPrefix(seen: seq<Seen>, exemptions: seq<Exemption>, today: int, n: nat)
    requires n <= |seen|
    ensures Fates(seen[..n], exemptions, today) == Fates(seen, exemptions, today)[..n]
  {
    if n == |seen| {
      TakeAll(seen);
    } else {
      FatesOfPrefix(seen[..|seen| - 1], exemptions, today, n);
      assert seen[..|seen| - 1][..n] == seen[..n];
    }
  }

  /**
   * A finding goes unexcused only if each exception that could absorb it had spent its whole
   * budget on earlier findings; an absorbed one is charged to the first that had not.
   */
  lemma WhyReported(seen: seq<Seen>, exemptions: seq<Exemption>, today: int, i: nat, k: nat)
    requires i < |seen| && k < |exemptions| && CanAbsorb(exemptions, today, k, seen[i].finding)
    requires seen[i].builtIn == Undecided
    ensures var fates := Fates(seen, exemptions, today);
            && (fates[i] == Unexcused ==> Spent(fates[..i], k) == exemptions[k].count)
            && (fates[i].Absorbed? && k < fates[i].entry ==> Spent(fates[..i], k) == exemptions[k].count)
            && (fates[i].Absorbed? || fates[i].Unexcused?)
  {
    FatesOfPrefix(seen, exemptions, today, i);
    FatesOfPrefix(seen, exemptions, today, i + 1);
    TakeNext(seen, i);
    var earlier := Fates(seen[..i], exemptions, today);
    FatesAppend(seen[..i], seen[i], exemptions, today);
    assert Fates(seen[..i + 1], exemptions, today)[i] == FateOf(seen[i], exemptions, today, earlier);
    BudgetsHold(seen[..i], exemptions, today, k);
    assert Spent(earlier, k) < exemptions[k].count ==> Open(exemptions, today, k, seen[i].finding, earlier);
  }

  // ---- the code ----

  /** The budgets are what the earlier findings left of the counts. */
  ghost predicate Accounted(budget: seq<nat>, fates: seq<Fate>, exemptions: seq<Exemption>) {
    |budget| == |exemptions| && forall k: nat :: k < |budget| ==> budget[k] + Spent(fates, k) == exemptions[k].count
  }

  /** The exception loop of `allowed`; the budget of the entry that absorbs is lowered in place. */
  method Absorb(f: Finding, exemptions: seq<Exemption>, today: int, budget: array<nat>, ghost earlier: seq<Fate>)
    returns (fate: Fate)
    requires budget.Length == |exemptions| && Accounted(budget[..], earlier, exemptions)
    modifies budget
    ensures fate == FirstOpen(exemptions, today, f, earlier, 0)
    ensures Accounted(budget[..], earlier + [fate], exemptions)
  {
    for index := 0 to |exemptions|
      invariant budget[..] == old(budget[..])
      invariant FirstOpen(exemptions, today, f, earlier, 0) == FirstOpen(exemptions, today, f, earlier, index)
    {
      assert budget[..][index] + Spent(earlier, index) == exemptions[index].count;
      if Live(exemptions[index], exemptions, today) && Describes(exemptions[index], f) && budget[index] > 0 {
        budget[index] := budget[index] - 1;
        AccountedStep(old(budget[..]), budget[..], earlier, Absorbed(index), exemptions);
        return Absorbed(index);
      }
    }
    AccountedStep(budget[..], budget[..], earlier, Unexcused, exemptions);
    return Unexcused;
  }

  lemma AccountedStep(before: seq<nat>, after: seq<nat>, earlier: seq<Fate>, fate: Fate, exemptions: seq<Exemption>)
    requires Accounted(before, earlier, exemptions)
    requires match fate
             case Absorbed(k) => k < |before| && before[k] > 0 && after == before[k := before[k] - 1]
             case _ => after == before
    ensures Accounted(after, earlier + [fate], exemptions)
  {
    forall k: nat | k < |after|
      ensures after[k] + Spent(earlier + [fate], k) == exemptions[k].count
    {
      SpentAppend(earlier, fate, k);
    }
  }

  /** `allowed`. */
  method Allowed(s: Seen, exemptions: seq<Exemption>, today: int, budget: array<nat>, ghost earlier: seq<Fate>)
    returns (fate: Fate)
    requires budget.Length == |exemptions| && Accounted(budget[..], earlier, exemptions)
    modifies budget
    ensures fate == FateOf(s, exemptions, today, earlier)
    ensures Accounted(budget[..], earlier + [fate], exemptions)
  {
    match s.builtIn {
      case Permit =>
        fate := Permitted;
        AccountedStep(budget[..], budget[..], earlier, fate, exemptions);
      case Forbid =>
        fate := Forbidden;
        AccountedStep(budget[..], budget[..], earlier, fate, exemptions);
      case Undecided =>
        fate := Absorb(s.finding, exemptions, today, budget, earlier);
    }
  }

  /** The last comprehension of `scan_sources`: all findings of all files, one shared budget. */
  method SpendBudgets(seen: seq<Seen>, exemptions: seq<Exemption>, today: int) returns (reported: seq<Finding>)
    ensures reported == Reported(seen, exemptions, today)
  {
    var budget := new nat[|exemptions|](i requires 0 <= i < |exemptions| => exemptions[i].count);
    reported := [];
    ghost var fates: seq<Fate> := [];
    for i := 0 to |seen|
      invariant fates == Fates(seen[..i], exemptions, today)
      invariant reported == Reported(seen[..i], exemptions, today)
      invariant Accounted(budget[..], fates, exemptions)
    {
      FatesAppend(seen[..i], seen[i], exemptions, today);
      TakeNext(seen, i);
      var fate := Allowed(seen[i], exemptions, today, budget, fates);
      fates := fates + [fate];
      if Shows(fate) {
        reported := reported + [seen[i].finding];
      }
    }
    TakeAll(seen);
  }

  // ---- scanning files ----

  /** One thing the scanner finds in a file; `scan` puts the file's own path on it. */
  datatype Mark = Mark(line: int, kind: string, symbol: string, text: string, payload: string)

  /** What reading and scanning one file gives. */
  datatype FileScan =
    | NotSource
    | Undecodable(message: string)
    | Decoded(language: string, firstLine: string, marks: seq<Mark>)

  /** The scanner: a function of path and content. `otherCodec` says that a codec is not UTF-8. */
  datatype Scanner = Scanner(read: (string, string) -> FileScan, otherCodec: string -> bool)

  function SeenMarks(path: string, language: string, firstLine: string, marks: seq<Mark>, other: string -> bool)
    : (seen: seq<Seen>)
    ensures |seen| == |marks| && forall s :: s in seen ==> s.finding.path == path
  {
    if marks == [] then []
    else
      var m := marks[0];
      var f := Finding(path, m.line, m.kind, m.symbol, m.text, m.payload);
      [Seen(f, BuiltInOf(f, language, firstLine, other))] + SeenMarks(path, language, firstLine, marks[1..], other)
  }

  /** The findings in one file before any exception is applied. */
  function SeenIn(sc: Scanner, path: string, text: string): (seen: seq<Seen>)
    ensures forall s :: s in seen ==> s.finding.path == path
  {
    match sc.read(path, text)
    case Decoded(language, firstLine, marks) => SeenMarks(path, language, firstLine, marks, sc.otherCodec)
    case _ => []
  }

  function ErrorsIn(sc: Scanner, path: string, text: string): (errors: seq<Finding>)
    ensures forall f :: f in errors ==> f.path == path
  {
    match sc.read(path, text)
    case Undecodable(message) => [Finding(path, 1, "coverage-error", "", message, "")]
    case _ => []
  }

  function AllSeen(sc: Scanner, files: map<string, string>, paths: seq<string>): (seen: seq<Seen>)
    requires forall p :: p in paths ==> p in files
    ensures forall s :: s in seen ==> s.finding.path in paths
  {
    if paths == [] then []
    else
      var p := paths[|paths| - 1];
      AllSeen(sc, files, paths[..|paths| - 1]) + SeenIn(sc, p, files[p])
  }

  function AllErrors(sc: Scanner, files: map<string, string>, paths: seq<string>): (errors: seq<Finding>)
    requires forall p :: p in paths ==> p in files
  {
    if paths == [] then []
    else
      var p := paths[|paths| - 1];
      AllErrors(sc, files, paths[..|paths| - 1]) + ErrorsIn(sc, p, files[p])
  }

  /** What `scan_sources` returns for files that are not excluded. */
  function ScanResult(sc: Scanner, files: map<string, string>, paths: seq<string>, exemptions: seq<Exemption>,
                      today: int): seq<Finding>
    requires forall p :: p in paths ==> p in files
  {
    AllErrors(sc, files, paths) + Reported(AllSeen(sc, files, paths), exemptions, today)
  }

  /** `scan_sources`; `excluded` says which of the files belong to others. */
  method ScanSources(sc: Scanner, files: map<string, string>, paths: seq<string>, excluded: string -> bool,
                     exemptions: seq<Exemption>, today: int)
    returns (findings: seq<Finding>)
    requires forall p :: p in paths ==> p in files
    ensures findings == ScanResult(sc, files, Filter(paths, p => !excluded(p)), exemptions, today)
  {
    var seen: seq<Seen>, errors: seq<Finding> := [], [];
    ghost var kept: seq<string> := [];
    for i := 0 to |paths|
      invariant kept == Filter(paths[..i], p => !excluded(p))
      invariant seen == AllSeen(sc, files, kept) && errors == AllErrors(sc, files, kept)
    {
      var path := paths[i];
      TakeNext(paths, i);
      FilterAppend(paths[..i], path, p => !excluded(p));
      if excluded(path) {
        continue;
      }
      assert (kept + [path])[..|kept|] == kept;
      match sc.read(path, files[path]) {
        case NotSource =>
        case Undecodable(message) =>
          errors := errors + [Finding(path, 1, "coverage-error", "", message, "")];
        case Decoded(language, firstLine, marks) =>
          seen := seen + SeenMarks(path, language, firstLine, marks, sc.otherCodec);
      }
      kept := kept + [path];
    }
    TakeAll(paths);
    var reported := SpendBudgets(seen, exemptions, today);
    return errors + reported;
  }
}
