/**
 * scripts/check_comment_policy.py: exceptions expire. A later day reports more in some file
 * exactly when an exception lapses in between.
 */
module PolicyDates {
  import opened RepoPaths
  import opened PolicyFindings
  import opened PolicyExceptions
  import opened PolicyBudgetLaws

  /** No exception lapses between the two days. */
  predicate NoneLapses(exemptions: seq<Exemption>, earlier: int, later: int) {
    forall e :: e in exemptions && Lapsed(e, later) ==> Lapsed(e, earlier)
  }

  lemma {:induction false} FirstOpenSameDay(exemptions: seq<Exemption>, earlier: int, later: int, f: Finding,
                                            fates: seq<Fate>, k: nat)
    requires earlier <= later && NoneLapses(exemptions, earlier, later) && k <= |exemptions|
    ensures FirstOpen(exemptions, later, f, fates, k) == FirstOpen(exemptions, earlier, f, fates, k)
    decreases |exemptions| - k
  {
    if k < |exemptions| {
      assert CanAbsorb(exemptions, later, k, f) <==> CanAbsorb(exemptions, earlier, k, f);
      FirstOpenSameDay(exemptions, earlier, later, f, fates, k + 1);
    }
  }

  /** Between two days on which the same exceptions have lapsed, reports do not change. */
  lemma {:induction false} SameReports(exemptions: seq<Exemption>, earlier: int, later: int, seen: seq<Seen>)
    requires earlier <= later && NoneLapses(exemptions, earlier, later)
    ensures Fates(seen, exemptions, later) == Fates(seen, exemptions, earlier)
    ensures Reported(seen, exemptions, later) == Reported(seen, exemptions, earlier)
  {
    if seen != [] {
      var init, last := seen[..|seen| - 1], seen[|seen| - 1];
      SameReports(exemptions, earlier, later, init);
      FirstOpenSameDay(exemptions, earlier, later, last.finding, Fates(init, exemptions, earlier), 0);
    }
  }

  // ---- many equal findings ----

  /** What the first `n` exceptions can absorb of a finding in all. */
  ghost function Capacity(exemptions: seq<Exemption>, today: int, f: Finding, n: nat): nat
    requires n <= |exemptions|
  {
    if n == 0 then 0
    else
      Capacity(exemptions, today, f, n - 1) +
      if CanAbsorb(exemptions, today, n - 1, f) then exemptions[n - 1].count else 0
  }

  ghost function TotalSpent(fates: seq<Fate>, n: nat): nat {
    if n == 0 then 0 else TotalSpent(fates, n - 1) + Spent(fates, n - 1)
  }

  lemma {:induction false} TotalAppend(fates: seq<Fate>, fate: Fate, n: nat)
    ensures TotalSpent(fates + [fate], n) == TotalSpent(fates, n) + if fate.Absorbed? && fate.entry < n then 1 else 0
  {
    if n > 0 {
      TotalAppend(fates, fate, n - 1);
      SpentAppend(fates, fate, n - 1);
    }
  }

  /** Equal findings without a built-in decision. */
  function Copies(f: Finding, n: nat): (seen: seq<Seen>)
    ensures |seen| == n && forall s :: s in seen ==> s == Seen(f, Undecided)
  {
    if n == 0 then [] else Copies(f, n - 1) + [Seen(f, Undecided)]
  }

  /** Only exceptions that can absorb the finding are spent on its copies. */
  lemma {:induction false} SpentOnCopies(exemptions: seq<Exemption>, today: int, f: Finding, n: nat, k: nat)
    requires k < |exemptions|
    ensures Spent(Fates(Copies(f, n), exemptions, today), k) <=
            if CanAbsorb(exemptions, today, k, f) then exemptions[k].count else 0
  {
    BudgetsHold(Copies(f, n), exemptions, today, k);
    if n > 0 {
      SpentOnCopies(exemptions, today, f, n - 1, k);
      FatesAppend(Copies(f, n - 1), Seen(f, Undecided), exemptions, today);
      var earlier := Fates(Copies(f, n - 1), exemptions, today);
      SpentAppend(earlier, FateOf(Seen(f, Undecided), exemptions, today, earlier), k);
    }
  }

  lemma {:induction false} TotalWithinCapacity(exemptions: seq<Exemption>, today: int, f: Finding, n: nat, m: nat)
    requires m <= |exemptions|
    ensures TotalSpent(Fates(Copies(f, n), exemptions, today), m) <= Capacity(exemptions, today, f, m)
  {
    if m > 0 {
      TotalWithinCapacity(exemptions, today, f, n, m - 1);
      SpentOnCopies(exemptions, today, f, n, m - 1);
    }
  }

  /** While less than the capacity is spent, some exception is open. */
  lemma {:induction false} SomeOpen(exemptions: seq<Exemption>, today: int, f: Finding, fates: seq<Fate>, m: nat)
    requires m <= |exemptions| && TotalSpent(fates, m) < Capacity(exemptions, today, f, m)
    ensures exists k: nat :: k < m && Open(exemptions, today, k, f, fates)
  {
    if !Open(exemptions, today, m - 1, f, fates) {
      SomeOpen(exemptions, today, f, fates, m - 1);
    }
  }

  /** What the findings have spent, and how often `f` is reported. */
  ghost function Outcome(exemptions: seq<Exemption>, today: int, f: Finding, seen: seq<Seen>): (nat, nat) {
    (TotalSpent(Fates(seen, exemptions, today), |exemptions|), Identities(Reported(seen, exemptions, today))[f.Id()])
  }

  /** A copy is absorbed exactly when less than the capacity is spent. */
  lemma AbsorbedIff(exemptions: seq<Exemption>, today: int, f: Finding, fates: seq<Fate>)
    requires TotalSpent(fates, |exemptions|) <= Capacity(exemptions, today, f, |exemptions|)
    requires var fate := FirstOpen(exemptions, today, f, fates, 0);
             TotalSpent(fates + [fate], |exemptions|) <= Capacity(exemptions, today, f, |exemptions|)
    ensures var fate := FirstOpen(exemptions, today, f, fates, 0);
            var spent := TotalSpent(fates, |exemptions|);
            if spent == Capacity(exemptions, today, f, |exemptions|)
            then fate.Unexcused? && TotalSpent(fates + [fate], |exemptions|) == spent
            else fate.Absorbed? && TotalSpent(fates + [fate], |exemptions|) == spent + 1
  {
    var fate := FirstOpen(exemptions, today, f, fates, 0);
    TotalAppend(fates, fate, |exemptions|);
    if TotalSpent(fates, |exemptions|) < Capacity(exemptions, today, f, |exemptions|) {
      SomeOpen(exemptions, today, f, fates, |exemptions|);
      var k: nat :| k < |exemptions| && Open(exemptions, today, k, f, fates);
    }
  }

  ghost predicate WithinCapacity(exemptions: seq<Exemption>, today: int, f: Finding, seen: seq<Seen>) {
    Outcome(exemptions, today, f, seen).0 <= Capacity(exemptions, today, f, |exemptions|)
  }

  /** The next copy is absorbed until the capacity is spent, and then reported. */
  lemma NextOutcome(exemptions: seq<Exemption>, today: int, f: Finding, seen: seq<Seen>)
    requires WithinCapacity(exemptions, today, f, seen)
    requires WithinCapacity(exemptions, today, f, seen + [Seen(f, Undecided)])
    ensures Outcome(exemptions, today, f, seen + [Seen(f, Undecided)]) ==
            NextPair(Outcome(exemptions, today, f, seen), Capacity(exemptions, today, f, |exemptions|))
  {
    var next := seen + [Seen(f, Undecided)];
    assert next[..|seen|] == seen;
    CountNext(next, exemptions, today, f.Id());
    AbsorbedIff(exemptions, today, f, Fates(seen, exemptions, today));
  }

  function NextPair(pair: (nat, nat), capacity: nat): (nat, nat) {
    if pair.0 == capacity then (capacity, pair.1 + 1) else (pair.0 + 1, pair.1)
  }

  lemma NextCopy(exemptions: seq<Exemption>, today: int, f: Finding, n: nat)
    requires n > 0
    ensures Outcome(exemptions, today, f, Copies(f, n)) ==
            NextPair(Outcome(exemptions, today, f, Copies(f, n - 1)), Capacity(exemptions, today, f, |exemptions|))
  {
    TotalWithinCapacity(exemptions, today, f, n - 1, |exemptions|);
    TotalWithinCapacity(exemptions, today, f, n, |exemptions|);
    NextOutcome(exemptions, today, f, Copies(f, n - 1));
  }

  lemma {:induction false} CopiesCounted(outcome: nat -> (nat, nat), capacity: nat, n: nat)
    requires outcome(0) == (0, 0)
    requires forall k: nat :: k > 0 ==> outcome(k) == NextPair(outcome(k - 1), capacity)
    ensures outcome(n) == if n <= capacity then (n, 0) else (capacity, n - capacity)
  {
    if n > 0 {
      CopiesCounted(outcome, capacity, n - 1);
    }
  }

  /** Copies are absorbed up to the capacity, and all further ones are reported. */
  lemma CopiesReported(exemptions: seq<Exemption>, today: int, f: Finding, n: nat)
    ensures var capacity := Capacity(exemptions, today, f, |exemptions|);
            Identities(Reported(Copies(f, n), exemptions, today))[f.Id()] == if n <= capacity then 0 else n - capacity
  {
    var outcome := (k: nat) => Outcome(exemptions, today, f, Copies(f, k));
    NothingSpent(|exemptions|);
    forall k: nat | k > 0
      ensures outcome(k) == NextPair(outcome(k - 1), Capacity(exemptions, today, f, |exemptions|))
    {
      NextCopy(exemptions, today, f, k);
    }
    CopiesCounted(outcome, Capacity(exemptions, today, f, |exemptions|), n);
  }

  lemma {:induction false} NothingSpent(n: nat)
    ensures TotalSpent([], n) == 0
  {
    if n > 0 {
      NothingSpent(n - 1);
    }
  }

  lemma {:induction false} CapacityShrinks(exemptions: seq<Exemption>, earlier: int, later: int, f: Finding,
                                           n: nat, k: nat)
    requires earlier <= later && n <= |exemptions| && k < |exemptions| && exemptions[k].count >= 1
    requires CanAbsorb(exemptions, earlier, k, f) && !CanAbsorb(exemptions, later, k, f)
    ensures Capacity(exemptions, later, f, n) + (if k < n then 1 else 0) <= Capacity(exemptions, earlier, f, n)
  {
    if n > 0 {
      CapacityShrinks(exemptions, earlier, later, f, n - 1, k);
      assert CanAbsorb(exemptions, later, n - 1, f) ==> CanAbsorb(exemptions, earlier, n - 1, f);
    }
  }

  /** Some list of findings of which the later day reports more. */
  lemma LapseReportsMore(exemptions: seq<Exemption>, earlier: int, later: int, k: nat)
    requires LoadedExceptions(exemptions) && earlier <= later && k < |exemptions|
    requires Lapsed(exemptions[k], later) && !Lapsed(exemptions[k], earlier)
    ensures exists seen, id :: Identities(Reported(seen, exemptions, later))[id] >
                               Identities(Reported(seen, exemptions, earlier))[id]
  {
    var e := exemptions[k];
    var f := Finding(e.path, 1, e.findingKind, e.symbol, e.text, e.payload);
    assert e in exemptions;
    assert Live(e, exemptions, earlier) by {
      forall x | x in exemptions && Lapsed(x, earlier)
        ensures IdentityOf(x) != IdentityOf(e)
      {
        var i :| 0 <= i < |exemptions| && exemptions[i] == x;
        assert i != k;
      }
    }
    CapacityShrinks(exemptions, earlier, later, f, |exemptions|, k);
    var n := Capacity(exemptions, earlier, f, |exemptions|);
    CopiesReported(exemptions, earlier, f, n);
    CopiesReported(exemptions, later, f, n);
  }

  /**
   * A later day reports no identity more often, whatever the files contain, if and only if no
   * exception lapses in between.
   */
  lemma LaterReportsNoMoreIff(exemptions: seq<Exemption>, earlier: int, later: int)
    requires LoadedExceptions(exemptions) && earlier <= later
    ensures NoneLapses(exemptions, earlier, later) <==>
            forall seen, id :: Identities(Reported(seen, exemptions, later))[id] <=
                               Identities(Reported(seen, exemptions, earlier))[id]
  {
    if NoneLapses(exemptions, earlier, later) {
      forall seen, id
        ensures Identities(Reported(seen, exemptions, later))[id] <=
                Identities(Reported(seen, exemptions, earlier))[id]
      {
        SameReports(exemptions, earlier, later, seen);
      }
    } else {
      var e :| e in exemptions && Lapsed(e, later) && !Lapsed(e, earlier);
      var k :| 0 <= k < |exemptions| && exemptions[k] == e;
      LapseReportsMore(exemptions, earlier, later, k);
    }
  }
}
