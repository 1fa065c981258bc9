/**
 * scripts/check_comment_policy.py: when the order of the exceptions matters. Entries are
 * spent first come, first served; fixture entries are for one payload, all others general.
 */
module PolicyOrder {
  import opened Wrappers
  import opened RepoPaths
  import opened PolicyFindings
  import opened PolicyExceptions
  import opened PolicyBudgetLaws
  import opened PolicyDates

  predicate General(e: Exemption) {
    e.kind != "fixture"
  }

  predicate GeneralFor(exemptions: seq<Exemption>, today: int, k: nat, f: Finding)
    requires k < |exemptions|
  {
    General(exemptions[k]) && CanAbsorb(exemptions, today, k, f)
  }

  predicate FixtureFor(exemptions: seq<Exemption>, today: int, k: nat, f: Finding)
    requires k < |exemptions|
  {
    !General(exemptions[k]) && CanAbsorb(exemptions, today, k, f)
  }

  /** The findings differ at most in line and payload: the same general entries describe them. */
  predicate SameGroup(f: Finding, g: Finding) {
    f.path == g.path && f.symbol == g.symbol && f.text == g.text && f.kind == g.kind
  }

  /** The joint counts of the general entries for a finding among the first `m`. */
  function Budget(exemptions: seq<Exemption>, today: int, f: Finding, m: nat): nat
    requires m <= |exemptions|
  {
    if m == 0 then 0
    else
      Budget(exemptions, today, f, m - 1) +
      if GeneralFor(exemptions, today, m - 1, f) then exemptions[m - 1].count else 0
  }

  /** What has been spent of them. */
  function Used(exemptions: seq<Exemption>, today: int, f: Finding, fates: seq<Fate>, m: nat): nat
    requires m <= |exemptions|
  {
    if m == 0 then 0
    else
      Used(exemptions, today, f, fates, m - 1) +
      if GeneralFor(exemptions, today, m - 1, f) then Spent(fates, m - 1) else 0
  }

  lemma {:induction false} UsedAppend(exemptions: seq<Exemption>, today: int, f: Finding, fates: seq<Fate>, fate: Fate,
                                      m: nat)
    requires m <= |exemptions|
    ensures Used(exemptions, today, f, fates + [fate], m) ==
            Used(exemptions, today, f, fates, m) +
            if fate.Absorbed? && fate.entry < m && GeneralFor(exemptions, today, fate.entry, f) then 1 else 0
  {
    if m > 0 {
      UsedAppend(exemptions, today, f, fates, fate, m - 1);
      SpentAppend(fates, fate, m - 1);
    }
  }

  lemma {:induction false} NothingUsed(exemptions: seq<Exemption>, today: int, f: Finding, m: nat)
    requires m <= |exemptions|
    ensures Used(exemptions, today, f, [], m) == 0
  {
    if m > 0 {
      NothingUsed(exemptions, today, f, m - 1);
    }
  }

  lemma {:induction false} GroupBudget(exemptions: seq<Exemption>, today: int, f: Finding, g: Finding, m: nat)
    requires m <= |exemptions| && SameGroup(f, g)
    ensures Budget(exemptions, today, f, m) == Budget(exemptions, today, g, m)
    ensures forall fates :: Used(exemptions, today, f, fates, m) == Used(exemptions, today, g, fates, m)
  {
    if m > 0 {
      GroupBudget(exemptions, today, f, g, m - 1);
    }
  }

  // ---- a group's budget is spent from the front ----

  /** No entry has spent more than its count. */
  ghost predicate WithinCounts(exemptions: seq<Exemption>, fates: seq<Fate>) {
    forall k: nat :: k < |exemptions| ==> Spent(fates, k) <= exemptions[k].count
  }

  lemma FatesWithinCounts(seen: seq<Seen>, exemptions: seq<Exemption>, today: int)
    ensures WithinCounts(exemptions, Fates(seen, exemptions, today))
  {
    forall k: nat | k < |exemptions|
      ensures Spent(Fates(seen, exemptions, today), k) <= exemptions[k].count
    {
      BudgetsHold(seen, exemptions, today, k);
    }
  }

  lemma {:induction false} UsedWithin(exemptions: seq<Exemption>, today: int, f: Finding, fates: seq<Fate>, m: nat,
                                      n: nat)
    requires m <= n <= |exemptions| && WithinCounts(exemptions, fates)
    ensures Used(exemptions, today, f, fates, m) <= Budget(exemptions, today, f, m)
    ensures Used(exemptions, today, f, fates, m) <= Used(exemptions, today, f, fates, n)
    ensures Budget(exemptions, today, f, m) <= Budget(exemptions, today, f, n)
    decreases n + m
  {
    if m < n {
      UsedWithin(exemptions, today, f, fates, m, n - 1);
    } else if m > 0 {
      UsedWithin(exemptions, today, f, fates, m - 1, m - 1);
    }
  }

  lemma {:induction false} OpenMeansLess(exemptions: seq<Exemption>, today: int, f: Finding, fates: seq<Fate>, k: nat,
                                         m: nat)
    requires k < m <= |exemptions| && WithinCounts(exemptions, fates)
    requires General(exemptions[k]) && Open(exemptions, today, k, f, fates)
    ensures Used(exemptions, today, f, fates, m) < Budget(exemptions, today, f, m)
  {
    UsedWithin(exemptions, today, f, fates, m - 1, m - 1);
    if k < m - 1 {
      OpenMeansLess(exemptions, today, f, fates, k, m - 1);
    }
  }

  lemma {:induction false} NoneOpenMeansAll(exemptions: seq<Exemption>, today: int, f: Finding, fates: seq<Fate>,
                                            m: nat)
    requires m <= |exemptions| && WithinCounts(exemptions, fates)
    requires forall k: nat :: k < m && General(exemptions[k]) ==> !Open(exemptions, today, k, f, fates)
    ensures Used(exemptions, today, f, fates, m) == Budget(exemptions, today, f, m)
  {
    if m > 0 {
      NoneOpenMeansAll(exemptions, today, f, fates, m - 1);
    }
  }

  function Smaller(a: nat, b: nat): nat {
    if a < b then a else b
  }

  ghost predicate InOrder(exemptions: seq<Exemption>, today: int, f: Finding, fates: seq<Fate>, m: nat)
    requires m <= |exemptions|
  {
    Used(exemptions, today, f, fates, m) ==
    Smaller(Used(exemptions, today, f, fates, |exemptions|), Budget(exemptions, today, f, m))
  }

  /** The general entries of a group are spent in the order of the list. */
  lemma {:induction false} SpentInOrder(seen: seq<Seen>, exemptions: seq<Exemption>, today: int, f: Finding, m: nat)
    requires m <= |exemptions|
    ensures InOrder(exemptions, today, f, Fates(seen, exemptions, today), m)
  {
    if seen == [] {
      NothingUsed(exemptions, today, f, m);
      NothingUsed(exemptions, today, f, |exemptions|);
    } else {
      var init, last := seen[..|seen| - 1], seen[|seen| - 1];
      SpentInOrder(init, exemptions, today, f, m);
      FatesWithinCounts(init, exemptions, today);
      InOrderStep(last, exemptions, today, f, Fates(init, exemptions, today), m);
    }
  }

  lemma InOrderStep(s: Seen, exemptions: seq<Exemption>, today: int, f: Finding, fates: seq<Fate>, m: nat)
    requires m <= |exemptions| && WithinCounts(exemptions, fates) && InOrder(exemptions, today, f, fates, m)
    ensures InOrder(exemptions, today, f, fates + [FateOf(s, exemptions, today, fates)], m)
  {
    var fate := FateOf(s, exemptions, today, fates);
    UsedAppend(exemptions, today, f, fates, fate, m);
    UsedAppend(exemptions, today, f, fates, fate, |exemptions|);
    UsedWithin(exemptions, today, f, fates, m, |exemptions|);
    if fate.Absorbed? && GeneralFor(exemptions, today, fate.entry, f) {
      assert SameGroup(f, s.finding);
      if fate.entry < m {
        assert Open(exemptions, today, fate.entry, f, fates);
        OpenMeansLess(exemptions, today, f, fates, fate.entry, m);
      } else {
        assert forall k: nat :: k < m && General(exemptions[k]) && Open(exemptions, today, k, f, fates) ==>
                                  Open(exemptions, today, k, s.finding, fates);
        NoneOpenMeansAll(exemptions, today, f, fates, m);
      }
    }
  }

  // ---- how the next finding fares ----

  datatype Way = ByGeneral | ByFixture | NotAbsorbed

  function WayOf(exemptions: seq<Exemption>, fate: Fate): Way {
    if !fate.Absorbed? then NotAbsorbed
    else if fate.entry < |exemptions| && General(exemptions[fate.entry]) then ByGeneral
    else ByFixture
  }

  /** The entry for the finding's own payload. */
  function OwnFixture(exemptions: seq<Exemption>, today: int, f: Finding, n: nat): (at: Option<nat>)
    requires n <= |exemptions|
    ensures at.Some? ==> at.value < n && FixtureFor(exemptions, today, at.value, f)
    ensures at.None? ==> forall k: nat :: k < n ==> !FixtureFor(exemptions, today, k, f)
  {
    if n == 0 then None
    else if FixtureFor(exemptions, today, n - 1, f) then Some(n - 1)
    else OwnFixture(exemptions, today, f, n - 1)
  }

  function Own(exemptions: seq<Exemption>, today: int, f: Finding): Option<nat> {
    OwnFixture(exemptions, today, f, |exemptions|)
  }

  lemma OwnIs(exemptions: seq<Exemption>, today: int, f: Finding, k: nat)
    requires LoadedExceptions(exemptions) && k < |exemptions|
    ensures Own(exemptions, today, f) == Some(k) <==> FixtureFor(exemptions, today, k, f)
  {
    var own := Own(exemptions, today, f);
    if FixtureFor(exemptions, today, k, f) {
      assert own.Some?;
      assert IdentityOf(exemptions[k]) == IdentityOf(exemptions[own.value]);
    }
  }

  /**
   * All that counts for a finding: how much of its group's budget is used, the part of the
   * budget listed before the fixture entry for its payload, and whether that entry is open.
   */
  function Expected(used: nat, budget: nat, before: Option<nat>, ownOpen: bool): Way {
    if before.Some? && used < before.value then ByGeneral
    else if before.Some? && ownOpen then ByFixture
    else if used < budget then ByGeneral
    else NotAbsorbed
  }

  function BudgetBefore(exemptions: seq<Exemption>, today: int, f: Finding): Option<nat> {
    match Own(exemptions, today, f)
    case None => None
    case Some(k) => Some(Budget(exemptions, today, f, k))
  }

  function OwnSpent(exemptions: seq<Exemption>, today: int, f: Finding, fates: seq<Fate>): nat {
    match Own(exemptions, today, f)
    case None => 0
    case Some(k) => Spent(fates, k)
  }

  function OwnCount(exemptions: seq<Exemption>, today: int, f: Finding): nat {
    match Own(exemptions, today, f)
    case None => 0
    case Some(k) => exemptions[k].count
  }

  /** What the finding can expect. */
  function Outlook(exemptions: seq<Exemption>, today: int, f: Finding, fates: seq<Fate>): Way {
    Expected(Used(exemptions, today, f, fates, |exemptions|), Budget(exemptions, today, f, |exemptions|),
             BudgetBefore(exemptions, today, f),
             OwnSpent(exemptions, today, f, fates) < OwnCount(exemptions, today, f))
  }

  lemma FaresReported(seen: seq<Seen>, exemptions: seq<Exemption>, today: int, f: Finding)
    requires LoadedExceptions(exemptions)
    requires FirstOpen(exemptions, today, f, Fates(seen, exemptions, today), 0).Unexcused?
    ensures Outlook(exemptions, today, f, Fates(seen, exemptions, today)) == NotAbsorbed
  {
    var fates, n := Fates(seen, exemptions, today), |exemptions|;
    FatesWithinCounts(seen, exemptions, today);
    NoneOpenMeansAll(exemptions, today, f, fates, n);
    var own := Own(exemptions, today, f);
    if own.Some? {
      assert !Open(exemptions, today, own.value, f, fates);
      UsedWithin(exemptions, today, f, fates, own.value, n);
    }
  }

  lemma FaresGeneral(seen: seq<Seen>, exemptions: seq<Exemption>, today: int, f: Finding)
    requires LoadedExceptions(exemptions)
    requires WayOf(exemptions, FirstOpen(exemptions, today, f, Fates(seen, exemptions, today), 0)) == ByGeneral
    ensures Outlook(exemptions, today, f, Fates(seen, exemptions, today)) == ByGeneral
  {
    var fates, n := Fates(seen, exemptions, today), |exemptions|;
    var k := FirstOpen(exemptions, today, f, fates, 0).entry;
    FatesWithinCounts(seen, exemptions, today);
    OpenMeansLess(exemptions, today, f, fates, k, n);
    var own := Own(exemptions, today, f);
    if own.Some? {
      if k < own.value {
        OpenMeansLess(exemptions, today, f, fates, k, own.value);
        SpentInOrder(seen, exemptions, today, f, own.value);
      } else {
        assert own.value != k;
        assert !Open(exemptions, today, own.value, f, fates);
      }
    }
  }

  lemma FaresFixture(seen: seq<Seen>, exemptions: seq<Exemption>, today: int, f: Finding)
    requires LoadedExceptions(exemptions)
    requires WayOf(exemptions, FirstOpen(exemptions, today, f, Fates(seen, exemptions, today), 0)) == ByFixture
    ensures var fates := Fates(seen, exemptions, today);
            && Outlook(exemptions, today, f, fates) == ByFixture
            && Own(exemptions, today, f) == Some(FirstOpen(exemptions, today, f, fates, 0).entry)
  {
    var fates, n := Fates(seen, exemptions, today), |exemptions|;
    var k := FirstOpen(exemptions, today, f, fates, 0).entry;
    FatesWithinCounts(seen, exemptions, today);
    OwnIs(exemptions, today, f, k);
    NoneOpenMeansAll(exemptions, today, f, fates, k);
    UsedWithin(exemptions, today, f, fates, k, n);
  }

  lemma Fares(seen: seq<Seen>, exemptions: seq<Exemption>, today: int, f: Finding)
    requires LoadedExceptions(exemptions)
    ensures var fates := Fates(seen, exemptions, today); var fate := FirstOpen(exemptions, today, f, fates, 0);
            && WayOf(exemptions, fate) == Outlook(exemptions, today, f, fates)
            && (WayOf(exemptions, fate) == ByFixture ==> Own(exemptions, today, f) == Some(fate.entry))
  {
    match WayOf(exemptions, FirstOpen(exemptions, today, f, Fates(seen, exemptions, today), 0))
    case ByGeneral => FaresGeneral(seen, exemptions, today, f);
    case ByFixture => FaresFixture(seen, exemptions, today, f);
    case NotAbsorbed => FaresReported(seen, exemptions, today, f);
  }

  /** Which budgets the next finding `g` is charged to. */
  lemma Charges(seen: seq<Seen>, exemptions: seq<Exemption>, today: int, g: Finding, f: Finding)
    requires LoadedExceptions(exemptions)
    ensures var fates := Fates(seen, exemptions, today); var way := Outlook(exemptions, today, g, fates);
            var after := fates + [FirstOpen(exemptions, today, g, fates, 0)];
            && Used(exemptions, today, f, after, |exemptions|) ==
               Used(exemptions, today, f, fates, |exemptions|) + (if way == ByGeneral && SameGroup(f, g) then 1 else 0)
            && OwnSpent(exemptions, today, f, after) ==
               OwnSpent(exemptions, today, f, fates) +
               if way == ByFixture && SameGroup(f, g) && f.payload == g.payload then 1 else 0
  {
    var fates := Fates(seen, exemptions, today);
    var fate := FirstOpen(exemptions, today, g, fates, 0);
    Fares(seen, exemptions, today, g);
    UsedAppend(exemptions, today, f, fates, fate, |exemptions|);
    if fate.Absorbed? {
      OwnIs(exemptions, today, f, fate.entry);
      OwnIs(exemptions, today, g, fate.entry);
    }
    var own := Own(exemptions, today, f);
    if own.Some? {
      SpentAppend(fates, fate, own.value);
    }
  }
}
