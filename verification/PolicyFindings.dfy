/** scripts/check_comment_policy.py: which findings count as introduced (`introduced`). */
module PolicyFindings {
  import opened RepoPaths

  /** What the multiset comparison uses: path, kind, symbol, text and payload, but not the line. */
  type Identity = (string, string, string, string, string)

  /** A finding of the comment scanner. */
  datatype Finding = Finding(path: string, line: int, kind: string, symbol: string, text: string, payload: string) {
    function Id(): Identity { (path, kind, symbol, text, payload) }
  }

  /** `comment_policy_matches`: a scope ending in "/" is a prefix, any other an exact file. */
  predicate InScope(path: string, scope: string) {
    if EndsWith(scope, "/") then StartsWith(path, scope) else path == scope
  }

  predicate IsError(f: Finding) {
    f.kind == "coverage-error" || f.kind == "payload-error"
  }

  /** Findings that the baseline may excuse. */
  predicate Excusable(f: Finding, completed: seq<string>) {
    !IsError(f) && forall scope :: scope in completed ==> !InScope(f.path, scope)
  }

  // ---- counting ----

  /** How many findings of `s` have this identity and are excusable. */
  function Count(s: seq<Finding>, completed: seq<string>, id: Identity): nat {
    if s == [] then 0
    else
      Count(s[..|s| - 1], completed, id) +
      if s[|s| - 1].Id() == id && Excusable(s[|s| - 1], completed) then 1 else 0
  }

  /** `Counter(f.identity for f in findings)`. */
  function Identities(s: seq<Finding>): multiset<Identity> {
    if s == [] then multiset{} else Identities(s[..|s| - 1]) + multiset{s[|s| - 1].Id()}
  }

  /** The findings marked in `mask`, in order. */
  function Keep(s: seq<Finding>, mask: seq<bool>): seq<Finding>
    requires |mask| == |s|
  {
    if s == [] then []
    else Keep(s[..|s| - 1], mask[..|s| - 1]) + if mask[|s| - 1] then [s[|s| - 1]] else []
  }

  function Min(a: nat, b: nat): nat {
    if a < b then a else b
  }

  lemma CountAppend(s: seq<Finding>, x: Finding, completed: seq<string>)
    ensures forall id :: Count(s + [x], completed, id) ==
                         Count(s, completed, id) + if x.Id() == id && Excusable(x, completed) then 1 else 0
  {
    assert (s + [x])[..|s|] == s;
  }

  lemma KeepAppend(s: seq<Finding>, mask: seq<bool>, x: Finding, keep: bool)
    requires |mask| == |s|
    ensures Keep(s + [x], mask + [keep]) == Keep(s, mask) + if keep then [x] else []
  {
    assert (s + [x])[..|s|] == s && (mask + [keep])[..|s|] == mask;
  }

  /** Of each identity, min(baseline count, excusable current count) findings are suppressed. */
  ghost predicate Balanced(result: seq<Finding>, current: seq<Finding>, baseline: seq<Finding>,
                           completed: seq<string>) {
    forall id :: Count(result, completed, id) + Min(Identities(baseline)[id], Count(current, completed, id)) ==
                 Count(current, completed, id)
  }

  /** Every inexcusable finding is marked. */
  ghost predicate KeepsInexcusable(current: seq<Finding>, mask: seq<bool>, completed: seq<string>)
    requires |mask| == |current|
  {
    forall i :: 0 <= i < |current| && !Excusable(current[i], completed) ==> mask[i]
  }

  /** The counter after some findings: what is left of each baseline count. */
  ghost predicate Left(remaining: multiset<Identity>, seen: seq<Finding>, baseline: seq<Finding>,
                       completed: seq<string>) {
    forall id :: remaining[id] + Min(Identities(baseline)[id], Count(seen, completed, id)) == Identities(baseline)[id]
  }

  lemma StepReported(remaining: multiset<Identity>, result: seq<Finding>, seen: seq<Finding>, x: Finding,
                     baseline: seq<Finding>, completed: seq<string>)
    requires Left(remaining, seen, baseline, completed) && Balanced(result, seen, baseline, completed)
    requires !Excusable(x, completed) || remaining[x.Id()] == 0
    ensures Left(remaining, seen + [x], baseline, completed)
    ensures Balanced(result + [x], seen + [x], baseline, completed)
  {
    CountAppend(seen, x, completed);
    CountAppend(result, x, completed);
  }

  lemma StepSuppressed(remaining: multiset<Identity>, result: seq<Finding>, seen: seq<Finding>, x: Finding,
                       baseline: seq<Finding>, completed: seq<string>)
    requires Left(remaining, seen, baseline, completed) && Balanced(result, seen, baseline, completed)
    requires Excusable(x, completed) && remaining[x.Id()] > 0
    ensures Left(remaining[x.Id() := remaining[x.Id()] - 1], seen + [x], baseline, completed)
    ensures Balanced(result, seen + [x], baseline, completed)
  {
    CountAppend(seen, x, completed);
  }

  /** What holds after the findings in `seen`. */
  ghost predicate Progress(remaining: multiset<Identity>, result: seq<Finding>, mask: seq<bool>, seen: seq<Finding>,
                           baseline: seq<Finding>, completed: seq<string>) {
    && |mask| == |seen| && result == Keep(seen, mask) && KeepsInexcusable(seen, mask, completed)
    && Left(remaining, seen, baseline, completed) && Balanced(result, seen, baseline, completed)
  }

  lemma ReportNext(remaining: multiset<Identity>, result: seq<Finding>, mask: seq<bool>, seen: seq<Finding>, x: Finding,
                   baseline: seq<Finding>, completed: seq<string>)
    requires Progress(remaining, result, mask, seen, baseline, completed)
    requires !Excusable(x, completed) || remaining[x.Id()] == 0
    ensures Progress(remaining, result + [x], mask + [true], seen + [x], baseline, completed)
  {
    StepReported(remaining, result, seen, x, baseline, completed);
    KeepAppend(seen, mask, x, true);
  }

  lemma SuppressNext(remaining: multiset<Identity>, result: seq<Finding>, mask: seq<bool>, seen: seq<Finding>,
                     x: Finding, baseline: seq<Finding>, completed: seq<string>)
    requires Progress(remaining, result, mask, seen, baseline, completed)
    requires Excusable(x, completed) && remaining[x.Id()] > 0
    ensures Progress(remaining[x.Id() := remaining[x.Id()] - 1], result, mask + [false], seen + [x], baseline,
                     completed)
  {
    StepSuppressed(remaining, result, seen, x, baseline, completed);
    KeepAppend(seen, mask, x, false);
  }

  /**
   * `introduced`. The result is a subsequence of the current findings that contains every
   * inexcusable one and suppresses exactly what the baseline counts allow.
   */
  method Introduced(current: seq<Finding>, baseline: seq<Finding>, completed: seq<string>)
    returns (result: seq<Finding>, ghost mask: seq<bool>)
    ensures |mask| == |current| && result == Keep(current, mask)
    ensures KeepsInexcusable(current, mask, completed)
    ensures Balanced(result, current, baseline, completed)
  {
    var remaining := Identities(baseline);
    result, mask := [], [];
    for i := 0 to |current|
      invariant Progress(remaining, result, mask, current[..i], baseline, completed)
    {
      var finding := current[i];
      TakeNext(current, i);
      if !Excusable(finding, completed) || remaining[finding.Id()] == 0 {
        ReportNext(remaining, result, mask, current[..i], finding, baseline, completed);
        result := result + [finding];
        mask := mask + [true];
      } else {
        SuppressNext(remaining, result, mask, current[..i], finding, baseline, completed);
        remaining := remaining[finding.Id() := remaining[finding.Id()] - 1];
        mask := mask + [false];
      }
    }
    TakeAll(current);
  }

  // ---- the order of the findings does not matter ----

  lemma {:induction false} CountSplit(a: seq<Finding>, b: seq<Finding>, completed: seq<string>, id: Identity)
    ensures Count(a + b, completed, id) == Count(a, completed, id) + Count(b, completed, id)
  {
    if b == [] {
      assert a + b == a;
    } else {
      assert (a + b)[..|a + b| - 1] == a + b[..|b| - 1];
      CountSplit(a, b[..|b| - 1], completed, id);
    }
  }

  lemma {:induction false} CountOfPermutation(a: seq<Finding>, b: seq<Finding>, completed: seq<string>, id: Identity)
    requires multiset(a) == multiset(b)
    ensures Count(a, completed, id) == Count(b, completed, id)
  {
    if a == [] {
      assert |multiset(b)| == 0;
    } else {
      var init, x := a[..|a| - 1], a[|a| - 1];
      assert a == init + [x];
      assert x in multiset(b);
      var k :| 0 <= k < |b| && b[k] == x;
      var left, right := b[..k], b[k + 1..];
      assert b == left + [x] + right;
      RemoveOne(init, left, right, x);
      CountOfPermutation(init, left + right, completed, id);
      CountSplit(left + [x], right, completed, id);
      CountSplit(left, [x], completed, id);
      CountSplit(left, right, completed, id);
      assert [x][..0] == [];
    }
  }

  lemma RemoveOne<T>(init: seq<T>, left: seq<T>, right: seq<T>, x: T)
    requires multiset(init + [x]) == multiset(left + [x] + right)
    ensures multiset(init) == multiset(left + right)
  {
    assert multiset(init + [x]) == multiset(init) + multiset{x};
    assert multiset(left + [x] + right) == multiset(left) + multiset{x} + multiset(right);
    assert multiset(left + right) == multiset(left) + multiset(right);
    assert multiset(init) == multiset(init + [x]) - multiset{x};
  }

  /** Scanning the same findings in another order keeps, per identity, equally many. */
  lemma SurvivorsIgnoreOrder(a: seq<Finding>, keptA: seq<Finding>, b: seq<Finding>, keptB: seq<Finding>,
                             baseline: seq<Finding>, completed: seq<string>, id: Identity)
    requires multiset(a) == multiset(b)
    requires Balanced(keptA, a, baseline, completed) && Balanced(keptB, b, baseline, completed)
    ensures Count(keptA, completed, id) == Count(keptB, completed, id)
  {
    CountOfPermutation(a, b, completed, id);
  }

  // ---- when nothing is introduced ----

  /** No finding is introduced: all are excusable, and none occurs more often than before. */
  ghost predicate NothingIntroduced(current: seq<Finding>, baseline: seq<Finding>, completed: seq<string>) {
    && (forall f :: f in current ==> Excusable(f, completed))
    && (forall id :: Identities(current)[id] <= Identities(baseline)[id])
  }

  lemma {:induction false} CountAllExcusable(s: seq<Finding>, completed: seq<string>, id: Identity)
    requires forall f :: f in s ==> Excusable(f, completed)
    ensures Count(s, completed, id) == Identities(s)[id]
  {
    if s != [] {
      CountAllExcusable(s[..|s| - 1], completed, id);
    }
  }

  lemma {:induction false} KeepMembers(s: seq<Finding>, mask: seq<bool>, i: nat)
    requires |mask| == |s| && i < |s| && mask[i]
    ensures s[i] in Keep(s, mask)
  {
    if i < |s| - 1 {
      KeepMembers(s[..|s| - 1], mask[..|s| - 1], i);
    }
  }

  lemma {:induction false} KeepSubset(s: seq<Finding>, mask: seq<bool>)
    requires |mask| == |s|
    ensures forall f :: f in Keep(s, mask) ==> f in s
  {
    if s != [] {
      KeepSubset(s[..|s| - 1], mask[..|s| - 1]);
    }
  }

  lemma {:induction false} CountMember(s: seq<Finding>, completed: seq<string>, f: Finding)
    requires f in s && Excusable(f, completed)
    ensures Count(s, completed, f.Id()) > 0
  {
    if f != s[|s| - 1] {
      CountMember(s[..|s| - 1], completed, f);
    }
  }

  /** `introduced` returns the empty list if and only if nothing is introduced. */
  lemma EmptyIffNothingIntroduced(current: seq<Finding>, baseline: seq<Finding>, completed: seq<string>,
                                  result: seq<Finding>, mask: seq<bool>)
    requires |mask| == |current| && result == Keep(current, mask)
    requires KeepsInexcusable(current, mask, completed) && Balanced(result, current, baseline, completed)
    ensures result == [] <==> NothingIntroduced(current, baseline, completed)
  {
    if result == [] {
      forall i | 0 <= i < |current|
        ensures Excusable(current[i], completed)
      {
        if mask[i] {
          KeepMembers(current, mask, i);
        }
      }
      forall id
        ensures Identities(current)[id] <= Identities(baseline)[id]
      {
        CountAllExcusable(current, completed, id);
      }
    }
    if NothingIntroduced(current, baseline, completed) && result != [] {
      var f := result[0];
      KeepSubset(current, mask);
      CountAllExcusable(current, completed, f.Id());
      CountMember(result, completed, f);
    }
  }
}
