/**
 * scripts/check_comment_policy.py: the policy ratchet (`check_ratchet`, `_is_wheel_bump`)
 * and what it guarantees for the policies of a whole history.
 */
module PolicyRatchet {
  import opened RepoPaths
  import opened PolicyFindings
  import opened PolicyExceptions

  datatype Enforcement = Advisory | Blocking

  datatype External = External(path: string, owner: string, provenance: string)

  datatype Policy = Policy(enforcement: Enforcement, completed: seq<string>, external: seq<External>,
                           exceptions: seq<Exemption>)

  // ---- wheels ----

  /** The components `PurePosixPath` keeps of a relative path. */
  function Components(path: string): seq<string> {
    Filter(Split(path, '/'), (part: string) => part != "" && part != ".")
  }

  function FileName(path: string): string {
    var parts := Components(path);
    if parts == [] then "" else parts[|parts| - 1]
  }

  function Directory(path: string): seq<string> {
    var parts := Components(path);
    if parts == [] then [] else parts[..|parts| - 1]
  }

  predicate IsWheel(e: External) {
    Suffix(FileName(e.path)) == ".whl"
  }

  /** What a wheel entry keeps when its version is bumped. */
  datatype WheelClass = WheelClass(directory: seq<string>, owner: string, provenance: string, distribution: string)

  function ClassOf(e: External): WheelClass {
    WheelClass(Directory(e.path), e.owner, e.provenance, Split(FileName(e.path), '-')[0])
  }

  /** `_is_wheel_bump`. */
  predicate IsWheelBump(candidate: External, baseline: External) {
    && IsWheel(candidate) && IsWheel(baseline)
    && Directory(candidate.path) == Directory(baseline.path)
    && candidate.owner == baseline.owner && candidate.provenance == baseline.provenance
    && Split(FileName(candidate.path), '-')[0] == Split(FileName(baseline.path), '-')[0]
  }

  /** A bump stays in the class of the wheel it replaces, and every such pair is a bump. */
  lemma BumpIffSameClass(a: External, b: External)
    ensures IsWheelBump(a, b) <==> IsWheel(a) && IsWheel(b) && ClassOf(a) == ClassOf(b)
  {
  }

  /** Some wheel of the list has the class of `e`. */
  ghost predicate HasClass(list: seq<External>, e: External) {
    exists b :: b in list && IsWheel(b) && ClassOf(b) == ClassOf(e)
  }

  // ---- one step ----

  /** An entry the ratchet accepts: it was there, or it replaces wheels that are gone. */
  ghost predicate EntryAllowed(e: External, policy: Policy, baseline: Policy) {
    || e in baseline.external
    || ((exists b :: b in baseline.external && IsWheelBump(e, b)) &&
        (forall b :: b in baseline.external && IsWheelBump(e, b) ==> b !in policy.external))
  }

  ghost predicate Ratchets(policy: Policy, baseline: Policy) {
    && (baseline.enforcement == Blocking ==> policy.enforcement == Blocking)
    && (forall scope :: scope in baseline.completed ==> scope in policy.completed)
    && (forall e :: e in policy.external ==> EntryAllowed(e, policy, baseline))
  }

  datatype Verdict = Accepted | EnforcementRelaxed | CompletedRemoved | ExternalExpanded

  /** `check_ratchet`. */
  method CheckRatchet(policy: Policy, baseline: Policy) returns (v: Verdict)
    ensures v == Accepted <==> Ratchets(policy, baseline)
    ensures v == EnforcementRelaxed <==> baseline.enforcement == Blocking && policy.enforcement == Advisory
    ensures v == ExternalExpanded ==> exists e :: e in policy.external && e !in baseline.external
  {
    if baseline.enforcement == Blocking && policy.enforcement == Advisory {
      return EnforcementRelaxed;
    }
    if exists scope :: scope in baseline.completed && scope !in policy.completed {
      return CompletedRemoved;
    }
    for i := 0 to |policy.external|
      invariant forall j :: 0 <= j < i ==> EntryAllowed(policy.external[j], policy, baseline)
    {
      var entry := policy.external[i];
      if entry in baseline.external {
        continue;
      }
      var matched := Filter(baseline.external, (b: External) => IsWheelBump(entry, b));
      if matched != [] && !(exists b :: b in matched && b in policy.external) {
        assert matched[0] in matched;
        continue;
      }
      assert !EntryAllowed(entry, policy, baseline) by {
        if b :| b in baseline.external && IsWheelBump(entry, b) {
          assert b in matched;
        }
      }
      return ExternalExpanded;
    }
    return Accepted;
  }

  // ---- whole histories ----

  /** A history of policies: each passes the ratchet against the one before. */
  ghost predicate Ratcheted(policies: seq<Policy>) {
    forall i :: 1 <= i < |policies| ==> StepRatchets(policies, i)
  }

  ghost predicate StepRatchets(policies: seq<Policy>, i: int)
    requires 1 <= i < |policies|
  {
    Ratchets(policies[i], policies[i - 1])
  }

  /**
   * `later` is no laxer: completed scopes only grow, blocking is not left, other external
   * entries only shrink, and every wheel has the class of an earlier wheel.
   */
  ghost predicate Tightens(later: Policy, earlier: Policy) {
    && (forall scope :: scope in earlier.completed ==> scope in later.completed)
    && (earlier.enforcement == Blocking ==> later.enforcement == Blocking)
    && (forall e :: e in later.external ==> e in earlier.external || (IsWheel(e) && HasClass(earlier.external, e)))
  }

  lemma RatchetTightens(policy: Policy, baseline: Policy)
    requires Ratchets(policy, baseline)
    ensures Tightens(policy, baseline)
  {
    forall e | e in policy.external
      ensures e in baseline.external || (IsWheel(e) && HasClass(baseline.external, e))
    {
      if e !in baseline.external {
        NewEntryHasClass(e, policy, baseline);
      }
    }
  }

  lemma TightensTransitive(c: Policy, b: Policy, a: Policy)
    requires Tightens(c, b) && Tightens(b, a)
    ensures Tightens(c, a)
  {
    forall e | e in c.external
      ensures e in a.external || (IsWheel(e) && HasClass(a.external, e))
    {
      if e !in b.external {
        var m :| m in b.external && IsWheel(m) && ClassOf(m) == ClassOf(e);
        if m !in a.external {
          var k :| k in a.external && IsWheel(k) && ClassOf(k) == ClassOf(m);
        }
      }
    }
  }

  /** Along any history every later policy is no laxer than every earlier one. */
  lemma {:induction false} PoliciesOnlyTighten(policies: seq<Policy>, i: nat, j: nat)
    requires Ratcheted(policies) && i <= j < |policies|
    ensures Tightens(policies[j], policies[i])
  {
    if i < j {
      assert StepRatchets(policies, j);
      PoliciesOnlyTighten(policies, i, j - 1);
      RatchetTightens(policies[j], policies[j - 1]);
      TightensTransitive(policies[j], policies[j - 1], policies[i]);
    }
  }

  lemma NewEntryHasClass(e: External, policy: Policy, baseline: Policy)
    requires EntryAllowed(e, policy, baseline) && e !in baseline.external
    ensures IsWheel(e) && HasClass(baseline.external, e)
  {
    var b :| b in baseline.external && IsWheelBump(e, b);
    BumpIffSameClass(e, b);
  }

  // ---- completed scopes are never excluded again ----

  /** The load-time check: no completed scope and external entry overlap. */
  predicate NoOverlap(policy: Policy) {
    forall scope, e :: scope in policy.completed && e in policy.external ==>
                         !InScope(scope, e.path) && !InScope(e.path, scope)
  }

  /** The two directional tests are enough: no file is in both a scope and an external entry. */
  lemma NoFileInBoth(file: string, scope: string, external: string)
    requires !InScope(scope, external) && !InScope(external, scope)
    ensures !(InScope(file, scope) && InScope(file, external))
  {
    PrefixesCompare(file, scope, external);
  }

  lemma PrefixesCompare(s: string, a: string, b: string)
    ensures StartsWith(s, a) && StartsWith(s, b) ==> StartsWith(a, b) || StartsWith(b, a)
  {
    if StartsWith(s, a) && StartsWith(s, b) {
      assert a == s[..|a|] && b == s[..|b|];
      assert if |a| <= |b| then b[..|a|] == a else a[..|b|] == b;
    }
  }

  /** A file that some policy of the history counted as completed is never excluded later on. */
  lemma CompletedIsForever(policies: seq<Policy>, i: nat, j: nat, file: string, scope: string, e: External)
    requires Ratcheted(policies) && i <= j < |policies| && NoOverlap(policies[j])
    requires scope in policies[i].completed && InScope(file, scope)
    requires e in policies[j].external
    ensures !InScope(file, e.path)
  {
    PoliciesOnlyTighten(policies, i, j);
    NoFileInBoth(file, scope, e.path);
  }

  // ---- when the number of external entries can grow ----

  /**
   * The number of external entries may grow: when the wheels of one class are removed, any
   * number of new wheels of that class can be added.
   */
  lemma OneWheelJustifiesMany(baseline: Policy, removed: External, kept: seq<External>, news: seq<External>)
    requires removed in baseline.external && IsWheel(removed)
    requires forall e :: e in kept ==> e in baseline.external && !(IsWheel(e) && ClassOf(e) == ClassOf(removed))
    requires forall e :: e in news ==> IsWheel(e) && ClassOf(e) == ClassOf(removed) && e !in baseline.external
    ensures Ratchets(baseline.(external := kept + news), baseline)
  {
    var policy := baseline.(external := kept + news);
    forall e | e in policy.external
      ensures EntryAllowed(e, policy, baseline)
    {
      if e in news {
        assert IsWheelBump(e, removed);
        assert forall b :: b in baseline.external && IsWheelBump(e, b) ==> b !in policy.external;
      }
    }
  }

  lemma {:induction false} NoMoreMembers(a: seq<External>, b: seq<External>)
    requires Distinct(a) && forall e :: e in a ==> e in b
    ensures |a| <= |b|
  {
    if a != [] {
      var x, rest := a[0], a[1..];
      assert x in a && forall e :: e in rest ==> e in a;
      var k :| 0 <= k < |b| && b[k] == x;
      var others := b[..k] + b[k + 1..];
      forall e | e in rest
        ensures e in others
      {
        assert e != x;
        var m :| 0 <= m < |b| && b[m] == e;
        assert others[if m < k then m else m - 1] == e;
      }
      NoMoreMembers(rest, others);
    }
  }

  /** Without a wheel in the baseline the number of different entries cannot grow. */
  lemma NoWheelNoGrowth(policy: Policy, baseline: Policy)
    requires Ratchets(policy, baseline) && Distinct(policy.external)
    requires forall b :: b in baseline.external ==> !IsWheel(b)
    ensures |policy.external| <= |baseline.external|
  {
    forall e | e in policy.external
      ensures e in baseline.external
    {
      if e !in baseline.external {
        NewEntryHasClass(e, policy, baseline);
      }
    }
    NoMoreMembers(policy.external, baseline.external);
  }

  // ---- as many wheels of one class as needed ----

  /** `parts` with `c` in front of the split string. */
  function InFront(c: char, sep: char, parts: seq<string>): seq<string>
    requires parts != []
  {
    if c == sep then [""] + parts else [[c] + parts[0]] + parts[1..]
  }

  lemma SplitNext(c: char, s: string, sep: char)
    ensures Split([c] + s, sep) == InFront(c, sep, Split(s, sep))
  {
    assert ([c] + s)[1..] == s;
  }

  lemma InFrontAppend(c: char, sep: char, x: seq<string>, y: seq<string>)
    requires x != []
    ensures InFront(c, sep, x + y) == InFront(c, sep, x) + y
  {
    assert (x + y)[1..] == x[1..] + y;
  }

  lemma {:induction false} SplitAt(a: string, b: string, sep: char)
    ensures Split(a + [sep] + b, sep) == Split(a, sep) + Split(b, sep)
  {
    if a == "" {
      assert a + [sep] + b == [sep] + b;
      SplitNext(sep, b, sep);
    } else {
      var c, rest := a[0], a[1..];
      SplitAt(rest, b, sep);
      InFrontAppend(c, sep, Split(rest, sep), Split(b, sep));
      SplitNext(c, rest, sep);
      SplitNext(c, rest + [sep] + b, sep);
      assert a == [c] + rest && a + [sep] + b == [c] + (rest + [sep] + b);
    }
  }

  lemma {:induction false} SplitWhole(a: string, sep: char)
    requires sep !in a
    ensures Split(a, sep) == [a]
  {
    if a != "" {
      SplitWhole(a[1..], sep);
      assert a == [a[0]] + a[1..];
    }
  }

  /** The parts contain characters of the string, but never the separator. */
  lemma {:induction false} SplitParts(s: string, sep: char)
    ensures forall part :: part in Split(s, sep) ==> sep !in part && forall c :: c in part ==> c in s
  {
    if s != "" {
      SplitParts(s[1..], sep);
      var rest := Split(s[1..], sep);
      assert s == [s[0]] + s[1..];
      assert rest[0] in rest && forall part :: part in rest[1..] ==> part in rest;
    }
  }

  predicate IsComponent(part: string) {
    part != "" && part != "." && '/' !in part
  }

  /** Joined components split into the same components. */
  lemma {:induction false} JoinComponents(parts: seq<string>)
    requires forall part :: part in parts ==> IsComponent(part)
    ensures Components(Join(parts, "/")) == parts
  {
    if parts == [] {
    } else {
      var first, rest := parts[0], parts[1..];
      assert first in parts && forall part :: part in rest ==> part in parts;
      assert parts == [first] + rest;
      SplitWhole(first, '/');
      JoinComponents(rest);
      if rest == [] {
        OneComponent(first, []);
      } else {
        SplitAt(first, Join(rest, "/"), '/');
        OneComponent(first, Split(Join(rest, "/"), '/'));
      }
    }
  }

  lemma OneComponent(part: string, rest: seq<string>)
    requires IsComponent(part)
    ensures Filter([part] + rest, (p: string) => p != "" && p != ".") ==
            [part] + Filter(rest, (p: string) => p != "" && p != ".")
  {
    assert ([part] + rest)[1..] == rest;
  }

  /** A wheel name of the distribution, longer than `n` characters. */
  function NameFrom(distribution: string, n: nat): string {
    distribution + ['-'] + (seq(n, i => 'x') + ".whl")
  }

  function LongName(e: External, n: nat): string {
    NameFrom(Split(FileName(e.path), '-')[0], n)
  }

  /** A wheel of the same class with such a name. */
  function LongWheel(e: External, n: nat): External {
    e.(path := Join(Directory(e.path) + [LongName(e, n)], "/"))
  }

  lemma DistributionIs(e: External)
    requires IsWheel(e)
    ensures Components(e.path) != [] && '/' !in FileName(e.path)
    ensures var dist := Split(FileName(e.path), '-')[0]; '-' !in dist && '/' !in dist
  {
    var parts := Components(e.path);
    assert parts != [] by {
      assert LastIndexOf("", '.') == -1;
    }
    SplitParts(e.path, '/');
    assert FileName(e.path) in parts;
    SplitParts(FileName(e.path), '-');
    assert Split(FileName(e.path), '-')[0] in Split(FileName(e.path), '-');
  }

  lemma NameFromIs(distribution: string, n: nat)
    requires '-' !in distribution && '/' !in distribution
    ensures IsComponent(NameFrom(distribution, n)) && |NameFrom(distribution, n)| > n
    ensures Suffix(NameFrom(distribution, n)) == ".whl"
    ensures Split(NameFrom(distribution, n), '-')[0] == distribution
  {
    var version := seq(n, i => 'x') + ".whl";
    assert '/' !in version;
    SplitAt(distribution, version, '-');
    SplitWhole(distribution, '-');
    Associative(distribution + ['-'], seq(n, i => 'x'), ".whl");
    WheelSuffix(distribution + ['-'] + seq(n, i => 'x'));
  }

  lemma WheelSuffix(stem: string)
    requires stem != ""
    ensures Suffix(stem + ".whl") == ".whl"
  {
    var name := stem + ".whl";
    assert name[|stem|..] == ".whl";
    LastIs(name, '.', |stem|);
  }

  lemma LongNameIs(e: External, n: nat)
    requires IsWheel(e)
    ensures IsComponent(LongName(e, n)) && |LongName(e, n)| > n && Suffix(LongName(e, n)) == ".whl"
    ensures Split(LongName(e, n), '-')[0] == Split(FileName(e.path), '-')[0]
  {
    DistributionIs(e);
    NameFromIs(Split(FileName(e.path), '-')[0], n);
  }

  /** The wheel with the long name is a wheel of the same class. */
  lemma LongWheelIs(e: External, n: nat)
    requires IsWheel(e)
    ensures FileName(LongWheel(e, n).path) == LongName(e, n)
    ensures IsWheel(LongWheel(e, n)) && ClassOf(LongWheel(e, n)) == ClassOf(e)
  {
    var parts := Directory(e.path) + [LongName(e, n)];
    DistributionIs(e);
    SplitParts(e.path, '/');
    LongNameIs(e, n);
    forall part | part in parts
      ensures IsComponent(part)
    {
      assert part in Components(e.path) || part == LongName(e, n);
    }
    JoinComponents(parts);
    assert parts[..|parts| - 1] == Directory(e.path);
  }

  /** A bound on the lengths of the file names. */
  function LongestName(external: seq<External>): (n: nat)
    ensures forall e :: e in external ==> |FileName(e.path)| <= n
  {
    if external == [] then 0
    else
      var rest := LongestName(external[1..]);
      assert external == [external[0]] + external[1..];
      if |FileName(external[0].path)| > rest then |FileName(external[0].path)| else rest
  }

  /** `count` new wheels of the class of `e`, none of which is in the list. */
  lemma {:induction false} NewWheels(e: External, external: seq<External>, count: nat) returns (news: seq<External>)
    requires IsWheel(e)
    ensures |news| == count && Distinct(news)
    ensures forall x :: x in news ==> IsWheel(x) && ClassOf(x) == ClassOf(e) && x !in external
  {
    if count == 0 {
      news := [];
    } else {
      var rest := NewWheels(e, external, count - 1);
      var n := LongestName(external + rest);
      LongNameIs(e, n);
      LongWheelIs(e, n);
      news := rest + [LongWheel(e, n)];
      assert LongWheel(e, n) !in external + rest;
    }
  }

  /** The number of different external entries can grow in one step exactly when there is a wheel. */
  lemma CanGrowIff(baseline: Policy)
    ensures (exists policy :: Ratchets(policy, baseline) && Distinct(policy.external) &&
                              |policy.external| > |baseline.external|) <==>
            exists e :: e in baseline.external && IsWheel(e)
  {
    if e :| e in baseline.external && IsWheel(e) {
      var news := NewWheels(e, baseline.external, |baseline.external| + 1);
      OneWheelJustifiesMany(baseline, e, [], news);
      var policy := baseline.(external := [] + news);
      assert policy.external == news;
    }
    if policy :| Ratchets(policy, baseline) && Distinct(policy.external) && |policy.external| > |baseline.external| {
      if forall b :: b in baseline.external ==> !IsWheel(b) {
        NoWheelNoGrowth(policy, baseline);
      }
    }
  }
}
