/**
 * What one shared set of exception budgets amounts to: it acts file by file, further
 * exceptions never report more, and only a lapse makes a later day report more.
 */
module PolicyBudgetLaws {
  import opened Wrappers
  import opened RepoPaths
  import opened PolicyFindings
  import opened PolicyExceptions

  // ---- counting identities ----

  lemma {:induction false} IdentitiesSplit(a: seq<Finding>, b: seq<Finding>)
    ensures Identities(a + b) == Identities(a) + Identities(b)
  {
    if b == [] {
      assert a + b == a;
    } else {
      assert (a + b)[..|a + b| - 1] == a + b[..|b| - 1];
      IdentitiesSplit(a, b[..|b| - 1]);
    }
  }

  lemma {:induction false} IdentityMember(s: seq<Finding>, id: Identity)
    ensures Identities(s)[id] > 0 <==> exists f :: f in s && f.Id() == id
  {
    if s != [] {
      var init, last := s[..|s| - 1], s[|s| - 1];
      IdentityMember(init, id);
      assert forall f :: f in s <==> f in init || f == last;
    }
  }

  lemma {:induction false} ReportedAreSeen(seen: seq<Seen>, exemptions: seq<Exemption>, today: int)
    ensures forall f :: f in Reported(seen, exemptions, today) ==> exists s :: s in seen && s.finding == f
  {
    if seen != [] {
      var init, last := seen[..|seen| - 1], seen[|seen| - 1];
      ReportedAreSeen(init, exemptions, today);
      assert forall s :: s in init ==> s in seen;
      assert last in seen;
    }
  }

  // ---- the budget of an exception belongs to one file ----

  lemma {:induction false} SpentSplit(a: seq<Fate>, b: seq<Fate>, k: nat)
    ensures Spent(a + b, k) == Spent(a, k) + Spent(b, k)
  {
    if b == [] {
      assert a + b == a;
    } else {
      assert (a + b)[..|a + b| - 1] == a + b[..|b| - 1];
      SpentSplit(a, b[..|b| - 1], k);
    }
  }

  /** The findings of other files cost an exception nothing. */
  lemma {:induction false} SpentElsewhere(seen: seq<Seen>, exemptions: seq<Exemption>, today: int, k: nat)
    requires k < |exemptions| && forall s :: s in seen ==> s.finding.path != exemptions[k].path
    ensures Spent(Fates(seen, exemptions, today), k) == 0
  {
    if seen != [] {
      var init, last := seen[..|seen| - 1], seen[|seen| - 1];
      assert last in seen && forall s :: s in init ==> s in seen;
      SpentElsewhere(init, exemptions, today, k);
      var earlier := Fates(init, exemptions, today);
      SpentAppend(earlier, FateOf(last, exemptions, today, earlier), k);
    }
  }

  /** Two states of the budgets that agree for one file decide its findings alike. */
  lemma {:induction false} FirstOpenLocal(exemptions: seq<Exemption>, today: int, f: Finding, a: seq<Fate>,
                                          b: seq<Fate>, k: nat)
    requires k <= |exemptions|
    requires forall j: nat :: j < |exemptions| && exemptions[j].path == f.path ==> Spent(a, j) == Spent(b, j)
    ensures FirstOpen(exemptions, today, f, a, k) == FirstOpen(exemptions, today, f, b, k)
    decreases |exemptions| - k
  {
    if k < |exemptions| {
      FirstOpenLocal(exemptions, today, f, a, b, k + 1);
    }
  }

  /** The fate of a file's finding does not depend on what came before from other files. */
  lemma FateElsewhere(a: seq<Seen>, own: seq<Fate>, s: Seen, exemptions: seq<Exemption>, today: int)
    requires forall x :: x in a ==> x.finding.path != s.finding.path
    ensures FateOf(s, exemptions, today, Fates(a, exemptions, today) + own) == FateOf(s, exemptions, today, own)
  {
    var before := Fates(a, exemptions, today);
    forall j: nat | j < |exemptions| && exemptions[j].path == s.finding.path
      ensures Spent(before + own, j) == Spent(own, j)
    {
      SpentSplit(before, own, j);
      SpentElsewhere(a, exemptions, today, j);
    }
    FirstOpenLocal(exemptions, today, s.finding, before + own, own, 0);
  }

  lemma {:induction false} FatesSplit(a: seq<Seen>, b: seq<Seen>, exemptions: seq<Exemption>, today: int, path: string)
    requires (forall s :: s in a ==> s.finding.path != path) && (forall s :: s in b ==> s.finding.path == path)
    ensures Fates(a + b, exemptions, today) == Fates(a, exemptions, today) + Fates(b, exemptions, today)
    ensures Reported(a + b, exemptions, today) == Reported(a, exemptions, today) + Reported(b, exemptions, today)
  {
    if b == [] {
      assert a + b == a;
    } else {
      var init, last := b[..|b| - 1], b[|b| - 1];
      assert b == init + [last] && a + b == (a + init) + [last];
      assert last in b && forall s :: s in init ==> s in b;
      FatesSplit(a, init, exemptions, today, path);
      SplitNext(a, init, last, exemptions, today);
    }
  }

  lemma SplitNext(a: seq<Seen>, b: seq<Seen>, s: Seen, exemptions: seq<Exemption>, today: int)
    requires forall x :: x in a ==> x.finding.path != s.finding.path
    requires Fates(a + b, exemptions, today) == Fates(a, exemptions, today) + Fates(b, exemptions, today)
    requires Reported(a + b, exemptions, today) == Reported(a, exemptions, today) + Reported(b, exemptions, today)
    ensures Fates((a + b) + [s], exemptions, today) ==
            Fates(a, exemptions, today) + Fates(b + [s], exemptions, today)
    ensures Reported((a + b) + [s], exemptions, today) ==
            Reported(a, exemptions, today) + Reported(b + [s], exemptions, today)
  {
    var fa, fb := Fates(a, exemptions, today), Fates(b, exemptions, today);
    var fate := FateOf(s, exemptions, today, fb);
    FateElsewhere(a, fb, s, exemptions, today);
    FatesAppend(a + b, s, exemptions, today);
    FatesAppend(b, s, exemptions, today);
    Associative(fa, fb, [fate]);
    var shown := if Shows(fate) then [s.finding] else [];
    Associative(Reported(a, exemptions, today), Reported(b, exemptions, today), shown);
  }

  /** What one file contributes on its own. */
  function FileReport(sc: Scanner, path: string, text: string, exemptions: seq<Exemption>, today: int): seq<Finding> {
    ErrorsIn(sc, path, text) + Reported(SeenIn(sc, path, text), exemptions, today)
  }

  lemma FileReportPath(sc: Scanner, path: string, text: string, exemptions: seq<Exemption>, today: int, id: Identity)
    requires id.0 != path
    ensures Identities(FileReport(sc, path, text, exemptions, today))[id] == 0
  {
    var report := FileReport(sc, path, text, exemptions, today);
    ReportedAreSeen(SeenIn(sc, path, text), exemptions, today);
    IdentityMember(report, id);
  }

  lemma FourParts(e1: seq<Finding>, e2: seq<Finding>, r1: seq<Finding>, r2: seq<Finding>)
    ensures Identities((e1 + e2) + (r1 + r2)) == Identities(e1 + r1) + Identities(e2 + r2)
  {
    IdentitiesSplit(e1 + e2, r1 + r2);
    IdentitiesSplit(e1, e2);
    IdentitiesSplit(r1, r2);
    IdentitiesSplit(e1, r1);
    IdentitiesSplit(e2, r2);
  }

  /**
   * Although all files share the budgets, each identity is reported exactly as often as when
   * its file is scanned alone.
   */
  lemma {:induction false} ScanActsFileByFile(sc: Scanner, files: map<string, string>, paths: seq<string>,
                                              exemptions: seq<Exemption>, today: int, id: Identity)
    requires Distinct(paths) && forall p :: p in paths ==> p in files
    ensures Identities(ScanResult(sc, files, paths, exemptions, today))[id] ==
            if id.0 in paths then Identities(FileReport(sc, id.0, files[id.0], exemptions, today))[id] else 0
  {
    if paths != [] {
      var init, p := paths[..|paths| - 1], paths[|paths| - 1];
      assert paths == init + [p] && p !in init;
      ScanActsFileByFile(sc, files, init, exemptions, today, id);
      var earlier, own := AllSeen(sc, files, init), SeenIn(sc, p, files[p]);
      FatesSplit(earlier, own, exemptions, today, p);
      var e1, e2 := AllErrors(sc, files, init), ErrorsIn(sc, p, files[p]);
      var r1, r2 := Reported(earlier, exemptions, today), Reported(own, exemptions, today);
      FourParts(e1, e2, r1, r2);
      if id.0 != p {
        FileReportPath(sc, p, files[p], exemptions, today, id);
      }
    }
  }

  // ---- a further exception never makes anything reported ----

  /** Index of an entry of `a + b` in `a + [x] + b`. */
  function Shift(a: seq<Exemption>, k: nat): nat {
    if k < |a| then k else k + 1
  }

  /** With the further exception `x`, no other exception has spent more. */
  ghost predicate NoMoreSpent(a: seq<Exemption>, b: seq<Exemption>, with: seq<Fate>, without: seq<Fate>) {
    forall k: nat :: k < |a + b| ==> Spent(with, Shift(a, k)) <= Spent(without, k)
  }

  ghost predicate SameSpent(a: seq<Exemption>, b: seq<Exemption>, with: seq<Fate>, without: seq<Fate>) {
    forall k: nat :: k < |a + b| ==> Spent(with, Shift(a, k)) == Spent(without, k)
  }

  /** The other exceptions describe and expire as before. */
  lemma ShiftedAbsorbs(a: seq<Exemption>, x: Exemption, b: seq<Exemption>, today: int, k: nat, f: Finding)
    requires LoadedExceptions(a + [x] + b) && k < |a + b|
    ensures (a + [x] + b)[Shift(a, k)] == (a + b)[k]
    ensures CanAbsorb(a + [x] + b, today, Shift(a, k), f) <==> CanAbsorb(a + b, today, k, f)
  {
    var e := (a + b)[k];
    assert (a + [x] + b)[|a|] == x && (a + [x] + b)[Shift(a, k)] == e;
    assert forall y :: y in a + [x] + b <==> y in a + b || y == x;
    assert IdentityOf(x) != IdentityOf(e);
  }

  /** What is open without `x` is open with it. */
  lemma StillOpen(a: seq<Exemption>, x: Exemption, b: seq<Exemption>, today: int, f: Finding, with: seq<Fate>,
                  without: seq<Fate>)
    requires LoadedExceptions(a + [x] + b) && NoMoreSpent(a, b, with, without)
    ensures forall k: nat :: k < |a + b| && Open(a + b, today, k, f, without) ==>
                               Open(a + [x] + b, today, Shift(a, k), f, with)
  {
    forall k: nat | k < |a + b| && Open(a + b, today, k, f, without)
      ensures Open(a + [x] + b, today, Shift(a, k), f, with)
    {
      ShiftedAbsorbs(a, x, b, today, k, f);
    }
  }

  /** One finding: the further exception keeps the others ahead, and reports no more. */
  lemma FurtherStep(a: seq<Exemption>, x: Exemption, b: seq<Exemption>, today: int, s: Seen, with: seq<Fate>,
                    without: seq<Fate>)
    requires LoadedExceptions(a + [x] + b) && NoMoreSpent(a, b, with, without)
    ensures var fate, fate' := FateOf(s, a + [x] + b, today, with), FateOf(s, a + b, today, without);
            NoMoreSpent(a, b, with + [fate], without + [fate']) && (Shows(fate) ==> Shows(fate'))
  {
    var fate, fate' := FateOf(s, a + [x] + b, today, with), FateOf(s, a + b, today, without);
    StillOpen(a, x, b, today, s.finding, with, without);
    forall k: nat | k < |a + b|
      ensures Spent(with + [fate], Shift(a, k)) <= Spent(without + [fate'], k)
    {
      SpentAppend(with, fate, Shift(a, k));
      SpentAppend(without, fate', k);
      ShiftedAbsorbs(a, x, b, today, k, s.finding);
      if fate == Absorbed(Shift(a, k)) && Spent(with, Shift(a, k)) == Spent(without, k) {
        assert Open(a + b, today, k, s.finding, without);
        assert fate' == Absorbed(k);
      }
    }
  }

  /** The next finding adds one to the count of its identity, if it is reported. */
  lemma CountNext(seen: seq<Seen>, exemptions: seq<Exemption>, today: int, id: Identity)
    requires seen != []
    ensures var init, last := seen[..|seen| - 1], seen[|seen| - 1];
            var fate := FateOf(last, exemptions, today, Fates(init, exemptions, today));
            && Fates(seen, exemptions, today) == Fates(init, exemptions, today) + [fate]
            && Identities(Reported(seen, exemptions, today))[id] ==
               Identities(Reported(init, exemptions, today))[id] +
               if Shows(fate) && last.finding.Id() == id then 1 else 0
  {
    var init, last := seen[..|seen| - 1], seen[|seen| - 1];
    var reported := Reported(init, exemptions, today);
    assert (reported + [last.finding])[..|reported|] == reported && reported + [] == reported;
  }

  /** With a further exception each identity is reported at most as often. */
  lemma {:induction false} FurtherException(a: seq<Exemption>, x: Exemption, b: seq<Exemption>, today: int,
                                            seen: seq<Seen>, id: Identity)
    requires LoadedExceptions(a + [x] + b)
    ensures NoMoreSpent(a, b, Fates(seen, a + [x] + b, today), Fates(seen, a + b, today))
    ensures Identities(Reported(seen, a + [x] + b, today))[id] <= Identities(Reported(seen, a + b, today))[id]
  {
    if seen != [] {
      var init, last := seen[..|seen| - 1], seen[|seen| - 1];
      FurtherException(a, x, b, today, init, id);
      FurtherStep(a, x, b, today, last, Fates(init, a + [x] + b, today), Fates(init, a + b, today));
      CountNext(seen, a + [x] + b, today, id);
      CountNext(seen, a + b, today, id);
    }
  }

  /** What is open for a file that `x` does not concern is open without it. */
  lemma ForeignOpen(a: seq<Exemption>, x: Exemption, b: seq<Exemption>, today: int, f: Finding, with: seq<Fate>,
                    without: seq<Fate>, m: nat)
    requires LoadedExceptions(a + [x] + b) && SameSpent(a, b, with, without) && f.path != x.path
    requires m < |a + [x] + b| && Open(a + [x] + b, today, m, f, with)
    ensures m != |a| && Open(a + b, today, if m < |a| then m else m - 1, f, without)
  {
    assert (a + [x] + b)[|a|] == x;
    var k: nat := if m < |a| then m else m - 1;
    ShiftedAbsorbs(a, x, b, today, k, f);
    assert Shift(a, k) == m;
  }

  /** A finding of a file that `x` does not concern has the same fate without `x`. */
  lemma ForeignFate(a: seq<Exemption>, x: Exemption, b: seq<Exemption>, today: int, f: Finding, with: seq<Fate>,
                    without: seq<Fate>)
    requires LoadedExceptions(a + [x] + b) && SameSpent(a, b, with, without) && f.path != x.path
    ensures var fate, fate' := FirstOpen(a + [x] + b, today, f, with, 0), FirstOpen(a + b, today, f, without, 0);
            if fate'.Absorbed? then fate == Absorbed(Shift(a, fate'.entry)) else fate == fate'
  {
    var fate, fate' := FirstOpen(a + [x] + b, today, f, with, 0), FirstOpen(a + b, today, f, without, 0);
    StillOpen(a, x, b, today, f, with, without);
    if fate.Absorbed? {
      ForeignOpen(a, x, b, today, f, with, without, fate.entry);
    }
  }

  /** One finding of a file that `x` does not concern: nothing changes. */
  lemma ForeignStep(a: seq<Exemption>, x: Exemption, b: seq<Exemption>, today: int, s: Seen, with: seq<Fate>,
                    without: seq<Fate>)
    requires LoadedExceptions(a + [x] + b) && SameSpent(a, b, with, without) && s.finding.path != x.path
    ensures var fate, fate' := FateOf(s, a + [x] + b, today, with), FateOf(s, a + b, today, without);
            SameSpent(a, b, with + [fate], without + [fate']) && (Shows(fate) <==> Shows(fate'))
  {
    var fate, fate' := FateOf(s, a + [x] + b, today, with), FateOf(s, a + b, today, without);
    ForeignFate(a, x, b, today, s.finding, with, without);
    forall k: nat | k < |a + b|
      ensures Spent(with + [fate], Shift(a, k)) == Spent(without + [fate'], k)
    {
      SpentAppend(with, fate, Shift(a, k));
      SpentAppend(without, fate', k);
    }
  }

  lemma {:induction false} ForeignException(a: seq<Exemption>, x: Exemption, b: seq<Exemption>, today: int,
                                            seen: seq<Seen>)
    requires LoadedExceptions(a + [x] + b) && forall s :: s in seen ==> s.finding.path != x.path
    ensures SameSpent(a, b, Fates(seen, a + [x] + b, today), Fates(seen, a + b, today))
    ensures Reported(seen, a + [x] + b, today) == Reported(seen, a + b, today)
  {
    if seen != [] {
      var init, last := seen[..|seen| - 1], seen[|seen| - 1];
      assert last in seen && forall s :: s in init ==> s in seen;
      ForeignException(a, x, b, today, init);
      ForeignStep(a, x, b, today, last, Fates(init, a + [x] + b, today), Fates(init, a + b, today));
    }
  }

  lemma LoadedWithout(a: seq<Exemption>, x: Exemption, b: seq<Exemption>)
    requires LoadedExceptions(a + [x] + b)
    ensures LoadedExceptions(a + b)
  {
    var all := a + [x] + b;
    assert forall k: nat :: k < |a + b| ==> (a + b)[k] == all[Shift(a, k)];
    assert forall e :: e in a + b ==> e in all;
  }

  /** `fewer` is `all` without the exceptions after `a` that `keep` rejects, in the same order. */
  ghost predicate Dropped(all: seq<Exemption>, fewer: seq<Exemption>, a: seq<Exemption>, e: seq<Exemption>,
                          keep: Exemption -> bool) {
    all == a + e && fewer == a + Filter(e, keep)
  }

  lemma DropNext(all: seq<Exemption>, fewer: seq<Exemption>, a: seq<Exemption>, e: seq<Exemption>,
                 keep: Exemption -> bool)
    requires Dropped(all, fewer, a, e, keep) && e != [] && LoadedExceptions(all)
    ensures all == a + [e[0]] + e[1..]
    ensures keep(e[0]) ==> Dropped(all, fewer, a + [e[0]], e[1..], keep)
    ensures !keep(e[0]) ==> Dropped(a + e[1..], fewer, a, e[1..], keep) && LoadedExceptions(a + e[1..])
  {
    assert all == a + [e[0]] + e[1..];
    LoadedWithout(a, e[0], e[1..]);
  }

  /** Dropping exceptions, the order of the others kept, reports each identity at least as often. */
  lemma {:induction false} FewerExceptionsReportMore(all: seq<Exemption>, fewer: seq<Exemption>, a: seq<Exemption>,
                                                     e: seq<Exemption>, keep: Exemption -> bool, today: int,
                                                     seen: seq<Seen>, id: Identity)
    requires LoadedExceptions(all) && Dropped(all, fewer, a, e, keep)
    ensures Identities(Reported(seen, all, today))[id] <= Identities(Reported(seen, fewer, today))[id]
    decreases |e|
  {
    if e != [] {
      DropNext(all, fewer, a, e, keep);
      if keep(e[0]) {
        FewerExceptionsReportMore(all, fewer, a + [e[0]], e[1..], keep, today, seen, id);
      } else {
        FurtherException(a, e[0], e[1..], today, seen, id);
        FewerExceptionsReportMore(a + e[1..], fewer, a, e[1..], keep, today, seen, id);
      }
    }
  }

  /** Dropping exceptions for other files changes nothing. */
  lemma {:induction false} ForeignExceptionsDoNotCount(all: seq<Exemption>, fewer: seq<Exemption>, a: seq<Exemption>,
                                                       e: seq<Exemption>, keep: Exemption -> bool, today: int,
                                                       seen: seq<Seen>, path: string)
    requires LoadedExceptions(all) && Dropped(all, fewer, a, e, keep)
    requires forall s :: s in seen ==> s.finding.path == path
    requires forall x :: x in e && x.path == path ==> keep(x)
    ensures Reported(seen, all, today) == Reported(seen, fewer, today)
    decreases |e|
  {
    if e != [] {
      DropNext(all, fewer, a, e, keep);
      assert e[0] in e && forall y :: y in e[1..] ==> y in e;
      if keep(e[0]) {
        ForeignExceptionsDoNotCount(all, fewer, a + [e[0]], e[1..], keep, today, seen, path);
      } else {
        ForeignException(a, e[0], e[1..], today, seen);
        ForeignExceptionsDoNotCount(a + e[1..], fewer, a, e[1..], keep, today, seen, path);
      }
    }
  }

  // ---- the order of the exceptions ----

  /**
   * The order of the exceptions matters. Say `general` describes both findings and `fixture`
   * only the first one: with the fixture entry first both are excused, with the general one
   * first the second finding is reported.
   */
  lemma ReorderingReportsMore(fixture: Exemption, general: Exemption, first: Finding, second: Finding, today: int)
    requires LoadedExceptions([fixture, general]) && fixture.count == 1 && general.count == 1
    requires !Lapsed(fixture, today) && !Lapsed(general, today)
    requires Describes(fixture, first) && !Describes(fixture, second)
    requires Describes(general, first) && Describes(general, second)
    ensures var seen := [Seen(first, Undecided), Seen(second, Undecided)];
            && LoadedExceptions([general, fixture])
            && Reported(seen, [fixture, general], today) == []
            && Reported(seen, [general, fixture], today) == [second]
  {
    assert IdentityOf([fixture, general][0]) != IdentityOf([fixture, general][1]);
    TwoExceptions(fixture, general, Seen(first, Undecided), Seen(second, Undecided), today);
    TwoExceptions(general, fixture, Seen(first, Undecided), Seen(second, Undecided), today);
  }

  /** Two live exceptions of count 1, the first of which describes the first finding. */
  lemma TwoExceptions(a: Exemption, b: Exemption, first: Seen, second: Seen, today: int)
    requires a.count == 1 && b.count == 1 && !Lapsed(a, today) && !Lapsed(b, today)
    requires first.builtIn == Undecided && second.builtIn == Undecided && Describes(a, first.finding)
    ensures Reported([first, second], [a, b], today) == if Describes(b, second.finding) then [] else [second.finding]
  {
    var both, one := [first, second], [first];
    assert both[..1] == one && one[..0] == [];
    var fates := Fates(one, [a, b], today);
    assert Open([a, b], today, 0, first.finding, []);
    assert fates == [Absorbed(0)] && fates[..0] == [];
    assert Spent(fates, 0) == 1 && Spent(fates, 1) == 0;
    assert !Open([a, b], today, 0, second.finding, fates);
    assert Open([a, b], today, 1, second.finding, fates) <==> Describes(b, second.finding);
    assert Reported(one, [a, b], today) == [];
  }
}
