/**
 * scripts/check_comment_policy.py: two orders of the same exceptions. They report alike
 * exactly when as much general budget is listed before every fixture entry.
 */
module PolicyReorder {
  import opened Wrappers
  import opened RepoPaths
  import opened PolicyFindings
  import opened PolicyExceptions
  import opened PolicyBudgetLaws
  import opened PolicyDates
  import opened PolicyOrder

  /** Both lists load and have the same members. */
  ghost predicate Reordered(a: seq<Exemption>, b: seq<Exemption>) {
    LoadedExceptions(a) && LoadedExceptions(b) && forall e :: e in a <==> e in b
  }

  /** A finding that the entry describes, below the lines with a built-in decision. */
  function FindingOf(e: Exemption): Finding {
    Finding(e.path, 3, e.findingKind, e.symbol, e.text, e.payload)
  }

  /** Before every live fixture entry both lists have general entries of the same joint count. */
  ghost predicate SameAhead(a: seq<Exemption>, b: seq<Exemption>, today: int) {
    forall i: nat, j: nat ::
      i < |a| && j < |b| && a[i] == b[j] && !General(a[i]) && Live(a[i], a, today) ==>
        Budget(a, today, FindingOf(a[i]), i) == Budget(b, today, FindingOf(a[i]), j)
  }

  // ---- what no order changes ----

  function Weight(e: Exemption, all: seq<Exemption>, today: int, f: Finding): nat {
    if General(e) && Live(e, all, today) && Describes(e, f) then e.count else 0
  }

  function Weights(s: seq<Exemption>, all: seq<Exemption>, today: int, f: Finding): nat {
    if s == [] then 0 else Weights(s[..|s| - 1], all, today, f) + Weight(s[|s| - 1], all, today, f)
  }

  lemma {:induction false} BudgetIsWeights(a: seq<Exemption>, all: seq<Exemption>, today: int, f: Finding, m: nat)
    requires m <= |a| && forall e :: e in a <==> e in all
    ensures Budget(a, today, f, m) == Weights(a[..m], all, today, f)
  {
    if m > 0 {
      BudgetIsWeights(a, all, today, f, m - 1);
      assert a[..m][..m - 1] == a[..m - 1];
      assert Live(a[m - 1], a, today) <==> Live(a[m - 1], all, today);
    }
  }

  lemma {:induction false} WeightsSplit(s: seq<Exemption>, t: seq<Exemption>, all: seq<Exemption>, today: int,
                                        f: Finding)
    ensures Weights(s + t, all, today, f) == Weights(s, all, today, f) + Weights(t, all, today, f)
  {
    if t == [] {
      assert s + t == s;
    } else {
      assert (s + t)[..|s + t| - 1] == s + t[..|t| - 1];
      WeightsSplit(s, t[..|t| - 1], all, today, f);
    }
  }

  lemma NoMembers(t: seq<Exemption>)
    ensures t == [] <==> forall e :: e !in t
  {
    if t != [] {
      assert t[0] in t;
    }
  }

  lemma WeightsWithOne(left: seq<Exemption>, x: Exemption, right: seq<Exemption>, all: seq<Exemption>, today: int,
                       f: Finding)
    ensures Weights(left + [x] + right, all, today, f) ==
            Weights(left + right, all, today, f) + Weight(x, all, today, f)
  {
    WeightsSplit(left + [x], right, all, today, f);
    WeightsSplit(left, right, all, today, f);
    assert (left + [x])[..|left|] == left;
  }

  lemma {:induction false} WeightsOfReordering(s: seq<Exemption>, t: seq<Exemption>, all: seq<Exemption>, today: int,
                                               f: Finding)
    requires Distinct(s) && Distinct(t) && forall e :: e in s <==> e in t
    ensures Weights(s, all, today, f) == Weights(t, all, today, f)
  {
    if s == [] {
      NoMembers(t);
    } else {
      var init, x := s[..|s| - 1], s[|s| - 1];
      var left, right := Around(t, x);
      assert s == init + [x];
      WithoutOne(init, x, left, right);
      WeightsOfReordering(init, left + right, all, today, f);
      WeightsWithOne(left, x, right, all, today, f);
    }
  }

  lemma Around(t: seq<Exemption>, x: Exemption) returns (left: seq<Exemption>, right: seq<Exemption>)
    requires x in t
    ensures t == left + [x] + right
  {
    var k :| 0 <= k < |t| && t[k] == x;
    left, right := t[..k], t[k + 1..];
  }

  lemma WithoutOne(init: seq<Exemption>, x: Exemption, left: seq<Exemption>, right: seq<Exemption>)
    requires Distinct(init + [x]) && Distinct(left + [x] + right)
    requires forall e :: e in init + [x] <==> e in left + [x] + right
    ensures Distinct(init) && Distinct(left + right) && forall e :: e in init <==> e in left + right
  {
    var s, t := init + [x], left + [x] + right;
    assert forall i :: 0 <= i < |init| ==> s[i] == init[i];
    assert s[|init|] == x && t[|left|] == x;
    assert forall i :: 0 <= i < |left| ==> t[i] == left[i];
    assert forall i :: 0 <= i < |right| ==> t[|left| + 1 + i] == right[i];
    assert x !in init && x !in left && x !in right;
    forall e
      ensures e in init <==> e in left + right
    {
      assert e in s <==> e in init || e == x;
      assert e in t <==> e in left || e == x || e in right;
    }
  }

  lemma LoadedIsDistinct(a: seq<Exemption>)
    requires LoadedExceptions(a)
    ensures Distinct(a)
  {
    forall i, j | 0 <= i < j < |a|
      ensures a[i] != a[j]
    {
      assert IdentityOf(a[i]) != IdentityOf(a[j]);
    }
  }

  lemma SameBudget(a: seq<Exemption>, b: seq<Exemption>, today: int, f: Finding)
    requires Reordered(a, b)
    ensures Budget(a, today, f, |a|) == Budget(b, today, f, |b|)
  {
    BudgetIsWeights(a, a, today, f, |a|);
    BudgetIsWeights(b, a, today, f, |b|);
    TakeAll(a);
    TakeAll(b);
    LoadedIsDistinct(a);
    LoadedIsDistinct(b);
    WeightsOfReordering(a, b, a, today, f);
  }

  /** The fixture entry of a finding is the same entry in both lists. */
  lemma SameFixture(a: seq<Exemption>, b: seq<Exemption>, today: int, f: Finding)
    requires Reordered(a, b)
    ensures Own(a, today, f).Some? <==> Own(b, today, f).Some?
    ensures Own(a, today, f).Some? && Own(b, today, f).Some? ==>
              a[Own(a, today, f).value] == b[Own(b, today, f).value]
    ensures OwnCount(a, today, f) == OwnCount(b, today, f)
  {
    FixtureElsewhere(a, b, today, f);
    FixtureElsewhere(b, a, today, f);
  }

  lemma FixtureElsewhere(a: seq<Exemption>, b: seq<Exemption>, today: int, f: Finding)
    requires Reordered(a, b)
    ensures var i, j := Own(a, today, f), Own(b, today, f); i.Some? ==> j.Some? && b[j.value] == a[i.value]
  {
    var i := Own(a, today, f);
    if i.Some? {
      assert a[i.value] in b;
      var j :| 0 <= j < |b| && b[j] == a[i.value];
      assert Live(b[j], b, today) <==> Live(b[j], a, today);
      OwnIs(b, today, f, j);
    }
  }

  // ---- the same budget ahead: the same reports ----

  lemma SameAheadOf(a: seq<Exemption>, b: seq<Exemption>, today: int, f: Finding)
    requires Reordered(a, b) && SameAhead(a, b, today)
    ensures BudgetBefore(a, today, f) == BudgetBefore(b, today, f)
  {
    SameFixture(a, b, today, f);
    var i, j := Own(a, today, f), Own(b, today, f);
    if i.Some? {
      GroupBudget(a, today, f, FindingOf(a[i.value]), i.value);
      GroupBudget(b, today, f, FindingOf(a[i.value]), j.value);
    }
  }

  /** Both orders have spent as much for every finding. */
  ghost predicate Alike(a: seq<Exemption>, b: seq<Exemption>, today: int, fa: seq<Fate>, fb: seq<Fate>) {
    forall f :: Used(a, today, f, fa, |a|) == Used(b, today, f, fb, |b|) &&
                OwnSpent(a, today, f, fa) == OwnSpent(b, today, f, fb)
  }

  lemma SameOutlook(a: seq<Exemption>, b: seq<Exemption>, today: int, fa: seq<Fate>, fb: seq<Fate>, f: Finding)
    requires Reordered(a, b) && SameAhead(a, b, today) && Alike(a, b, today, fa, fb)
    ensures Outlook(a, today, f, fa) == Outlook(b, today, f, fb)
  {
    SameBudget(a, b, today, f);
    SameFixture(a, b, today, f);
    SameAheadOf(a, b, today, f);
    assert Used(a, today, f, fa, |a|) == Used(b, today, f, fb, |b|);
  }

  /** A finding with a built-in decision costs nothing. */
  lemma DecidedCostsNothing(a: seq<Exemption>, today: int, f: Finding, fates: seq<Fate>, fate: Fate)
    requires !fate.Absorbed?
    ensures Used(a, today, f, fates + [fate], |a|) == Used(a, today, f, fates, |a|)
    ensures OwnSpent(a, today, f, fates + [fate]) == OwnSpent(a, today, f, fates)
  {
    UsedAppend(a, today, f, fates, fate, |a|);
    var own := Own(a, today, f);
    if own.Some? {
      SpentAppend(fates, fate, own.value);
    }
  }

  lemma AlikeStep(seen: seq<Seen>, s: Seen, a: seq<Exemption>, b: seq<Exemption>, today: int)
    requires Reordered(a, b) && SameAhead(a, b, today)
    requires Alike(a, b, today, Fates(seen, a, today), Fates(seen, b, today))
    ensures var fa, fb := Fates(seen, a, today), Fates(seen, b, today);
            var fate, fate' := FateOf(s, a, today, fa), FateOf(s, b, today, fb);
            Alike(a, b, today, fa + [fate], fb + [fate']) && (Shows(fate) <==> Shows(fate'))
  {
    var fa, fb := Fates(seen, a, today), Fates(seen, b, today);
    var fate, fate' := FateOf(s, a, today, fa), FateOf(s, b, today, fb);
    SameOutlook(a, b, today, fa, fb, s.finding);
    Fares(seen, a, today, s.finding);
    Fares(seen, b, today, s.finding);
    forall f
      ensures Used(a, today, f, fa + [fate], |a|) == Used(b, today, f, fb + [fate'], |b|) &&
              OwnSpent(a, today, f, fa + [fate]) == OwnSpent(b, today, f, fb + [fate'])
    {
      assert Used(a, today, f, fa, |a|) == Used(b, today, f, fb, |b|);
      if s.builtIn == Undecided {
        Charges(seen, a, today, s.finding, f);
        Charges(seen, b, today, s.finding, f);
      } else {
        DecidedCostsNothing(a, today, f, fa, fate);
        DecidedCostsNothing(b, today, f, fb, fate');
      }
    }
  }

  /** The same budget ahead of every fixture entry: the same findings are reported. */
  lemma {:induction false} SameReportsInOrder(seen: seq<Seen>, a: seq<Exemption>, b: seq<Exemption>, today: int)
    requires Reordered(a, b) && SameAhead(a, b, today)
    ensures Alike(a, b, today, Fates(seen, a, today), Fates(seen, b, today))
    ensures Reported(seen, a, today) == Reported(seen, b, today)
  {
    if seen == [] {
      NothingAlike(a, b, today);
    } else {
      var init, last := seen[..|seen| - 1], seen[|seen| - 1];
      SameReportsInOrder(init, a, b, today);
      AlikeStep(init, last, a, b, today);
    }
  }

  lemma NothingAlike(a: seq<Exemption>, b: seq<Exemption>, today: int)
    requires Reordered(a, b)
    ensures Alike(a, b, today, [], [])
  {
    forall f
      ensures Used(a, today, f, [], |a|) == Used(b, today, f, [], |b|) &&
              OwnSpent(a, today, f, []) == OwnSpent(b, today, f, [])
    {
      NothingUsed(a, today, f, |a|);
      NothingUsed(b, today, f, |b|);
    }
  }

  // ---- another budget ahead: findings that the new order reports more often ----

  /** What two findings of a group have cost and left, `f` with a fixture entry and `q` without. */
  datatype Tally = Tally(used: nat, own: nat, f: nat, q: nat)

  ghost function TallyFrom(a: seq<Exemption>, today: int, f: Finding, q: Finding, fates: seq<Fate>,
                           reported: multiset<Identity>): Tally {
    Tally(Used(a, today, f, fates, |a|), OwnSpent(a, today, f, fates), reported[f.Id()], reported[q.Id()])
  }

  ghost function TallyOf(a: seq<Exemption>, today: int, f: Finding, q: Finding, seen: seq<Seen>): Tally {
    TallyFrom(a, today, f, q, Fates(seen, a, today), Identities(Reported(seen, a, today)))
  }

  /** `f` has a fixture entry of count `c` with `ahead` of the group's budget `all` before it. */
  ghost predicate Case(a: seq<Exemption>, today: int, f: Finding, q: Finding, ahead: nat, all: nat, c: nat) {
    && LoadedExceptions(a) && SameGroup(f, q) && f.payload != q.payload
    && BudgetBefore(a, today, f) == Some(ahead) && BudgetBefore(a, today, q) == None
    && Budget(a, today, f, |a|) == all && OwnCount(a, today, f) == c
  }

  function Next(t: Tally, way: Way, isF: bool): Tally {
    match way
    case ByGeneral => t.(used := t.used + 1)
    case ByFixture => t.(own := t.own + 1)
    case NotAbsorbed => if isF then t.(f := t.f + 1) else t.(q := t.q + 1)
  }

  /** What the next finding does to the tally. */
  lemma StepFrom(a: seq<Exemption>, today: int, f: Finding, q: Finding, seen: seq<Seen>, g: Finding,
                 reported: multiset<Identity>, reported': multiset<Identity>)
    requires LoadedExceptions(a) && SameGroup(f, q) && f.payload != q.payload && (g == f || g == q)
    requires Own(a, today, q) == None
    requires var notAbsorbed := Outlook(a, today, g, Fates(seen, a, today)) == NotAbsorbed;
             && reported'[f.Id()] == reported[f.Id()] + (if notAbsorbed && g.Id() == f.Id() then 1 else 0)
             && reported'[q.Id()] == reported[q.Id()] + (if notAbsorbed && g.Id() == q.Id() then 1 else 0)
    ensures var fates := Fates(seen, a, today);
            TallyFrom(a, today, f, q, fates + [FirstOpen(a, today, g, fates, 0)], reported') ==
            Next(TallyFrom(a, today, f, q, fates, reported), Outlook(a, today, g, fates), g == f)
  {
    Charges(seen, a, today, g, f);
  }

  /** How often the identities are reported after it. */
  lemma StepReports(a: seq<Exemption>, today: int, seen: seq<Seen>, g: Finding, id: Identity)
    requires LoadedExceptions(a)
    ensures var next := seen + [Seen(g, Undecided)]; var fates := Fates(seen, a, today);
            && Fates(next, a, today) == fates + [FirstOpen(a, today, g, fates, 0)]
            && Identities(Reported(next, a, today))[id] ==
               Identities(Reported(seen, a, today))[id] +
               if Outlook(a, today, g, fates) == NotAbsorbed && g.Id() == id then 1 else 0
  {
    var next := seen + [Seen(g, Undecided)];
    assert next[..|seen|] == seen;
    Fares(seen, a, today, g);
    CountNext(next, a, today, id);
  }

  lemma Step(a: seq<Exemption>, today: int, f: Finding, q: Finding, seen: seq<Seen>, g: Finding)
    requires LoadedExceptions(a) && SameGroup(f, q) && f.payload != q.payload && (g == f || g == q)
    requires Own(a, today, q) == None
    ensures var t := TallyOf(a, today, f, q, seen);
            TallyOf(a, today, f, q, seen + [Seen(g, Undecided)]) ==
            Next(t, Outlook(a, today, g, Fates(seen, a, today)), g == f)
  {
    var next := seen + [Seen(g, Undecided)];
    StepReports(a, today, seen, g, f.Id());
    StepReports(a, today, seen, g, q.Id());
    StepFrom(a, today, f, q, seen, g, Identities(Reported(seen, a, today)), Identities(Reported(next, a, today)));
  }

  lemma CopiesNext(seen: seq<Seen>, f: Finding, n: nat)
    requires n > 0
    ensures seen + Copies(f, n) == (seen + Copies(f, n - 1)) + [Seen(f, Undecided)]
  {
  }

  /** The tally after `n` more findings `f`, or `q`. */
  function Run(t: Tally, ahead: nat, all: nat, c: nat, isF: bool, n: nat): Tally {
    if n == 0 then t
    else
      var u := Run(t, ahead, all, c, isF, n - 1);
      Next(u, Expected(u.used, all, if isF then Some(ahead) else None, isF && u.own < c), isF)
  }

  /** A tally that starts at zero and counts every further `f` and `q`. */
  ghost predicate Counts(tally: seq<Seen> -> Tally, f: Finding, q: Finding, ahead: nat, all: nat, c: nat) {
    && tally([]) == Tally(0, 0, 0, 0)
    && forall seen, isF :: tally(seen + [Seen(if isF then f else q, Undecided)]) ==
                           Run(tally(seen), ahead, all, c, isF, 1)
  }

  lemma TallyCounts(a: seq<Exemption>, today: int, f: Finding, q: Finding, ahead: nat, all: nat, c: nat)
    requires Case(a, today, f, q, ahead, all, c)
    ensures Counts(seen => TallyOf(a, today, f, q, seen), f, q, ahead, all, c)
  {
    NothingUsed(a, today, f, |a|);
    GroupBudget(a, today, f, q, |a|);
    forall seen, isF
      ensures TallyOf(a, today, f, q, seen + [Seen(if isF then f else q, Undecided)]) ==
              Run(TallyOf(a, today, f, q, seen), ahead, all, c, isF, 1)
    {
      RunOne(TallyOf(a, today, f, q, seen), ahead, all, c, isF);
      Step(a, today, f, q, seen, if isF then f else q);
    }
  }

  lemma RunOne(t: Tally, ahead: nat, all: nat, c: nat, isF: bool)
    ensures Run(t, ahead, all, c, isF, 1) ==
            Next(t, Expected(t.used, all, if isF then Some(ahead) else None, isF && t.own < c), isF)
  {
  }

  lemma {:induction false} TallyRuns(tally: seq<Seen> -> Tally, f: Finding, q: Finding, ahead: nat, all: nat, c: nat,
                                     seen: seq<Seen>, isF: bool, n: nat)
    requires Counts(tally, f, q, ahead, all, c)
    ensures tally(seen + Copies(if isF then f else q, n)) == Run(tally(seen), ahead, all, c, isF, n)
  {
    var g := if isF then f else q;
    if n == 0 {
      assert seen + Copies(g, 0) == seen;
    } else {
      TallyRuns(tally, f, q, ahead, all, c, seen, isF, n - 1);
      CopiesNext(seen, g, n);
      RunOne(tally(seen + Copies(g, n - 1)), ahead, all, c, isF);
    }
  }

  /** How much of the general budget `n` findings `f` take, the first ones to come. */
  function Taken(n: nat, ahead: nat, c: nat): nat {
    if n <= ahead then n else if n <= ahead + c then ahead else n - c
  }

  lemma {:induction false} FirstPhase(ahead: nat, all: nat, c: nat, n: nat)
    requires n <= all && ahead <= all
    ensures Run(Tally(0, 0, 0, 0), ahead, all, c, true, n) == Tally(Taken(n, ahead, c), n - Taken(n, ahead, c), 0, 0)
  {
    if n > 0 {
      FirstPhase(ahead, all, c, n - 1);
    }
  }

  lemma {:induction false} SecondPhase(t: Tally, ahead: nat, all: nat, c: nat, n: nat)
    requires t.used <= all
    ensures var more := Smaller(n, all - t.used);
            Run(t, ahead, all, c, false, n) == t.(used := t.used + more, q := t.q + n - more)
  {
    if n > 0 {
      SecondPhase(t, ahead, all, c, n - 1);
    }
  }

  lemma {:induction false} ThirdPhase(t: Tally, ahead: nat, all: nat, c: nat, n: nat)
    requires ahead <= all && t.used == all && t.own <= c
    ensures var more := Smaller(n, c - t.own);
            Run(t, ahead, all, c, true, n) == t.(own := t.own + more, f := t.f + n - more)
  {
    if n > 0 {
      ThirdPhase(t, ahead, all, c, n - 1);
    }
  }

  /** First `n` findings `f`, then `all` findings `q`, then `c` more `f`. */
  function Probe(f: Finding, q: Finding, n: nat, all: nat, c: nat): seq<Seen> {
    Copies(f, n) + Copies(q, all) + Copies(f, c)
  }

  lemma ProbeCounts(tally: seq<Seen> -> Tally, f: Finding, q: Finding, ahead: nat, all: nat, c: nat, n: nat)
    requires Counts(tally, f, q, ahead, all, c) && ahead <= all && n <= all
    ensures var t := tally(Probe(f, q, n, all, c)); var own := n - Taken(n, ahead, c);
            t.q == Taken(n, ahead, c) && t.f == own
  {
    var taken := Taken(n, ahead, c);
    var first := Copies(f, n);
    var second := first + Copies(q, all);
    assert tally(first) == Tally(taken, n - taken, 0, 0) by {
      assert [] + first == first;
      TallyRuns(tally, f, q, ahead, all, c, [], true, n);
      FirstPhase(ahead, all, c, n);
    }
    assert tally(second) == Tally(all, n - taken, 0, taken) by {
      TallyRuns(tally, f, q, ahead, all, c, first, false, all);
      SecondPhase(Tally(taken, n - taken, 0, 0), ahead, all, c, all);
    }
    TallyRuns(tally, f, q, ahead, all, c, second, true, c);
    ThirdPhase(Tally(all, n - taken, 0, taken), ahead, all, c, c);
  }

  lemma ProbeReports(a: seq<Exemption>, today: int, f: Finding, q: Finding, ahead: nat, all: nat, c: nat, n: nat)
    requires Case(a, today, f, q, ahead, all, c) && ahead <= all && n <= all
    ensures var reported := Identities(Reported(Probe(f, q, n, all, c), a, today));
            reported[q.Id()] == Taken(n, ahead, c) && reported[f.Id()] == n - Taken(n, ahead, c)
  {
    TallyCounts(a, today, f, q, ahead, all, c);
    ProbeCounts(seen => TallyOf(a, today, f, q, seen), f, q, ahead, all, c, n);
  }

  /** All that the probe contains are findings of one file that no built-in rule decides. */
  ghost predicate Plain(seen: seq<Seen>, path: string) {
    forall s :: s in seen ==> s.builtIn == Undecided && s.finding.path == path && s.finding.line == 3
  }

  lemma ProbeIsPlain(f: Finding, q: Finding, n: nat, all: nat, c: nat, path: string)
    requires f.path == path && q.path == path && f.line == 3 && q.line == 3
    ensures Plain(Probe(f, q, n, all, c), path)
  {
  }

  /** A payload longer than those of all entries. */
  function Fresh(a: seq<Exemption>): (payload: string)
    ensures forall e :: e in a ==> |e.payload| < |payload|
  {
    if a == [] then "x"
    else
      var rest := Fresh(a[1..]);
      assert a == [a[0]] + a[1..];
      rest + a[0].payload
  }

  /** Two orders with different budgets ahead of the fixture entry: order `a` reports one of the two more often. */
  lemma ProbeShows(a: seq<Exemption>, b: seq<Exemption>, today: int, f: Finding, q: Finding, ahead: nat, ahead': nat,
                   all: nat, c: nat)
    returns (n: nat, id: Identity)
    requires Case(a, today, f, q, ahead, all, c) && Case(b, today, f, q, ahead', all, c)
    requires ahead <= all && ahead' <= all && ahead != ahead' && c >= 1
    ensures id == f.Id() || id == q.Id()
    ensures var seen := Probe(f, q, n, all, c);
            Identities(Reported(seen, a, today))[id] > Identities(Reported(seen, b, today))[id]
  {
    n, id := if ahead < ahead' then ahead' else ahead, if ahead < ahead' then f.Id() else q.Id();
    ProbeReports(a, today, f, q, ahead, all, c, n);
    ProbeReports(b, today, f, q, ahead', all, c, n);
  }

  /** Another budget ahead of some fixture entry: order `a` reports an identity more often. */
  lemma OtherOrderShows(a: seq<Exemption>, b: seq<Exemption>, today: int, i: nat, j: nat)
    returns (seen: seq<Seen>, id: Identity)
    requires Reordered(a, b) && i < |a| && j < |b| && a[i] == b[j] && !General(a[i]) && Live(a[i], a, today)
    requires Budget(a, today, FindingOf(a[i]), i) != Budget(b, today, FindingOf(a[i]), j)
    ensures Plain(seen, a[i].path) && id.0 == a[i].path && id.1 == a[i].findingKind
    ensures Identities(Reported(seen, a, today))[id] > Identities(Reported(seen, b, today))[id]
  {
    var f := FindingOf(a[i]);
    var q := f.(payload := Fresh(a));
    assert a[i] in a;
    assert Live(b[j], b, today) <==> Live(b[j], a, today);
    SameBudget(a, b, today, f);
    CaseHolds(a, a, today, i, q);
    CaseHolds(a, b, today, j, q);
    var all, c := Budget(a, today, f, |a|), a[i].count;
    var n;
    n, id := ProbeShows(a, b, today, f, q, Budget(a, today, f, i), Budget(b, today, f, j), all, c);
    seen := Probe(f, q, n, all, c);
    ProbeIsPlain(f, q, n, all, c, f.path);
  }

  lemma CaseHolds(a: seq<Exemption>, b: seq<Exemption>, today: int, j: nat, q: Finding)
    requires Reordered(a, b) && j < |b| && !General(b[j]) && Live(b[j], b, today)
    requires q == FindingOf(b[j]).(payload := Fresh(a))
    ensures var f := FindingOf(b[j]);
            && Case(b, today, f, q, Budget(b, today, f, j), Budget(b, today, f, |b|), b[j].count)
            && Budget(b, today, f, j) <= Budget(b, today, f, |b|)
  {
    var f := FindingOf(b[j]);
    OwnIs(b, today, f, j);
    UnknownPayload(a, b, today, q);
    NothingSpentYet(b);
    UsedWithin(b, today, f, [], j, |b|);
    assert b[j] in b;
  }

  lemma NothingSpentYet(a: seq<Exemption>)
    ensures WithinCounts(a, [])
  {
  }

  lemma UnknownPayload(a: seq<Exemption>, b: seq<Exemption>, today: int, q: Finding)
    requires q.payload == Fresh(a) && forall e :: e in a <==> e in b
    ensures Own(b, today, q) == None
  {
    assert forall k: nat :: k < |b| ==> b[k] in b && |b[k].payload| < |q.payload|;
  }

  lemma DifferentAhead(a: seq<Exemption>, b: seq<Exemption>, today: int) returns (i: nat, j: nat)
    requires !SameAhead(a, b, today)
    ensures i < |a| && j < |b| && a[i] == b[j] && !General(a[i]) && Live(a[i], a, today)
    ensures Budget(a, today, FindingOf(a[i]), i) != Budget(b, today, FindingOf(a[i]), j)
  {
    i, j :| i < |a| && j < |b| && a[i] == b[j] && !General(a[i]) && Live(a[i], a, today) &&
            Budget(a, today, FindingOf(a[i]), i) != Budget(b, today, FindingOf(a[i]), j);
  }

  /**
   * In another order the same exceptions report no identity more often, whatever the findings
   * are, if and only if as much general budget comes before every live fixture entry.
   */
  lemma ReorderingReportsNoMoreIff(a: seq<Exemption>, b: seq<Exemption>, today: int)
    requires Reordered(a, b)
    ensures SameAhead(a, b, today) <==>
            forall seen, id :: Identities(Reported(seen, a, today))[id] <= Identities(Reported(seen, b, today))[id]
  {
    if SameAhead(a, b, today) {
      forall seen, id
        ensures Identities(Reported(seen, a, today))[id] <= Identities(Reported(seen, b, today))[id]
      {
        SameReportsInOrder(seen, a, b, today);
      }
    } else {
      var i, j := DifferentAhead(a, b, today);
      var seen, id := OtherOrderShows(a, b, today, i, j);
    }
  }
}
