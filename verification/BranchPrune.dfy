/** scripts/branch_prune_merged.py: deleting proven-merged branches by compare-and-swap. */
module BranchPrune {
  import opened Wrappers
  import opened RepoPaths
  import opened GitRefs

  datatype Candidate = Candidate(branch: string, oid: string, prNumber: int, mergeCommit: string)

  /** What `_delete_branch` does: returns True, returns False, or raises. */
  datatype DeleteOutcome = Gone | NotGone | DeleteRaised

  // ---- what the events of one deletion attempt show ----

  /** The ref was removed from the merged head, and the next snapshot shows no worktree on it. */
  ghost predicate ShowsGone(c: Candidate, events: seq<Event>) {
    && |events| == 2 && RemovedHead(c, events[0])
    && events[1].command == ListWorktrees && events[1].exit == Success
    && c.branch !in events[1].before.attached
  }

  ghost predicate RemovedHead(c: Candidate, e: Event) {
    && e.command == DeleteRef(c.branch, c.oid) && e.exit == Success
    && Holds(e.before, c.branch, c.oid) && c.branch !in e.after.refs
  }

  /** The attempt removed nothing. */
  ghost predicate ShowsUntouched(c: Candidate, events: seq<Event>) {
    && |events| == 1
    && events[0].command == DeleteRef(c.branch, c.oid) && events[0].exit == NonZero
    && events[0].after == events[0].before
  }

  /** After the removal, the last event leaves, or observes, the ref holding the merged head. */
  ghost predicate ShowsRestored(c: Candidate, events: seq<Event>) {
    && |events| >= 3 && RemovedHead(c, events[0])
    && var last := events[|events| - 1];
       && (last.command == CreateRef(c.branch, c.oid) || last.command == ListRefs) && last.exit == Success
       && Holds(last.after, c.branch, c.oid)
  }

  /** The attempt stopped at a command that could not be run, or at a ref seen off the merged head. */
  ghost predicate ShowsTrouble(c: Candidate, events: seq<Event>) {
    && events != []
    && (forall i :: 0 <= i < |events| - 1 && events[i].exit == Raised ==> events[i].command == ListWorktrees)
    && var last := events[|events| - 1];
       || (last.exit == Raised && last.command != ListWorktrees)
       || (last.command == ListRefs && !Holds(last.before, c.branch, c.oid) && RemovedHead(c, events[0]))
  }

  ghost predicate Attempt(c: Candidate, outcome: DeleteOutcome, events: seq<Event>) {
    && events != [] && events[0].command == DeleteRef(c.branch, c.oid)
    && (forall i :: 0 <= i < |events| ==> Atomic(events[i]) && LaterEvent(c, events, i))
    && match outcome
       case Gone => ShowsGone(c, events)
       case NotGone => ShowsUntouched(c, events) || ShowsRestored(c, events)
       case DeleteRaised => ShowsTrouble(c, events)
  }

  /** After the deletion come reads, and one re-creation of the head the deletion removed. */
  ghost predicate LaterEvent(c: Candidate, events: seq<Event>, i: int)
    requires 0 <= i < |events|
  {
    match events[i].command
    case DeleteRef(_, _) => i == 0
    case CreateRef(branch, oid) => branch == c.branch && oid == c.oid && i == 2 && RemovedHead(c, events[0])
    case _ => events[i].after == events[i].before
  }

  /** `_delete_branch`. */
  method DeleteBranch(git: Git, c: Candidate) returns (outcome: DeleteOutcome)
    modifies git
    ensures old(git.log) <= git.log
    ensures Attempt(c, outcome, git.log[|old(git.log)|..])
  {
    ghost var start := |git.log|;
    var removed := git.UpdateRefDelete(c.branch, c.oid);
    if removed != Success {
      return if removed == Raised then DeleteRaised else NotGone;
    }
    var attached := git.WorktreeBranches();
    var becameAttached := attached.Err? || c.branch in attached.value;
    if !becameAttached {
      return Gone;
    }
    var restored := git.UpdateRefCreate(c.branch, c.oid);
    if restored == Raised {
      return DeleteRaised;
    }
    if restored == NonZero {
      var branches := git.LocalBranches();
      if branches.Err? || c.branch !in branches.value || branches.value[c.branch] != c.oid {
        return DeleteRaised;
      }
    }
    return NotGone;
  }

  // ---- the deletion loop ----

  datatype PruneResult = PruneResult(deleted: nat, wouldDelete: nat, kept: nat, failed: nat)

  datatype Fate = Deleted | Kept | Failed | Aborted

  /** What happened to one candidate, and the commands that were run for it. */
  datatype Run = Run(candidate: Candidate, fate: Fate, events: seq<Event>)

  /** The ref list shows the merged head. */
  ghost predicate SawHead(c: Candidate, e: Event) {
    e.command == ListRefs && e.after == e.before && e.exit == Success && Holds(e.before, c.branch, c.oid)
  }

  /** The worktree list shows no worktree on the branch. */
  ghost predicate SawFree(c: Candidate, e: Event) {
    e.command == ListWorktrees && e.after == e.before && e.exit == Success && c.branch !in e.before.attached
  }

  /** Reads only: the ref had moved, or a worktree had appeared. */
  ghost predicate ShowsKept(c: Candidate, events: seq<Event>) {
    && 1 <= |events| <= 2
    && events[0].command == ListRefs && events[0].after == events[0].before
    && (|events| == 1 ==> events[0].exit == Success && !Holds(events[0].before, c.branch, c.oid))
    && (|events| == 2 ==> SawHead(c, events[0]) && events[1].command == ListWorktrees &&
                          events[1].after == events[1].before &&
                          events[1].exit == Success && c.branch in events[1].before.attached)
  }

  /** A read that could not be run ends the whole prune. */
  ghost predicate ShowsUnreadable(c: Candidate, events: seq<Event>) {
    && 1 <= |events| <= 2
    && (forall e :: e in events ==> e.after == e.before && e.command in {ListRefs, ListWorktrees})
    && events[|events| - 1].exit == Raised
  }

  /** An attempt is only made right after both checks passed. */
  ghost predicate CheckedAttempt(c: Candidate, outcome: DeleteOutcome, events: seq<Event>) {
    |events| >= 2 && SawHead(c, events[0]) && SawFree(c, events[1]) && Attempt(c, outcome, events[2..])
  }

  ghost predicate RunOk(run: Run) {
    match run.fate
    case Deleted => CheckedAttempt(run.candidate, Gone, run.events)
    case Kept => ShowsKept(run.candidate, run.events)
    case Failed => CheckedAttempt(run.candidate, NotGone, run.events)
    case Aborted => ShowsUnreadable(run.candidate, run.events) ||
                    CheckedAttempt(run.candidate, DeleteRaised, run.events)
  }

  ghost function Flatten(runs: seq<Run>): seq<Event> {
    if runs == [] then [] else Flatten(runs[..|runs| - 1]) + runs[|runs| - 1].events
  }

  ghost function CountFate(runs: seq<Run>, fate: Fate): nat {
    if runs == [] then 0
    else CountFate(runs[..|runs| - 1], fate) + if runs[|runs| - 1].fate == fate then 1 else 0
  }

  /** `runs` accounts for the candidates in order; only a last one can have aborted the prune. */
  ghost predicate Accounts(candidates: seq<Candidate>, runs: seq<Run>, aborted: bool) {
    && |runs| <= |candidates| && (!aborted ==> |runs| == |candidates|)
    && (forall i :: 0 <= i < |runs| ==> runs[i].candidate == candidates[i] && RunOk(runs[i]))
    && (forall i :: 0 <= i < |runs| ==> (runs[i].fate == Aborted <==> aborted && i == |runs| - 1))
    && (aborted ==> runs != [])
  }

  /** The re-check and deletion of one candidate. */
  method PruneOne(git: Git, c: Candidate) returns (fate: Fate)
    modifies git
    ensures old(git.log) <= git.log
    ensures RunOk(Run(c, fate, git.log[|old(git.log)|..]))
  {
    ghost var start := git.log;
    var branches := git.LocalBranches();
    if branches.Err? {
      return Aborted;
    }
    if c.branch !in branches.value || branches.value[c.branch] != c.oid {
      return Kept;
    }
    var attached := git.WorktreeBranches();
    if attached.Err? {
      return Aborted;
    }
    if c.branch in attached.value {
      return Kept;
    }
    ghost var checked := git.log;
    var outcome := DeleteBranch(git, c);
    assert git.log[|start|..][2..] == git.log[|checked|..];
    fate := match outcome case Gone => Deleted case NotGone => Failed case DeleteRaised => Aborted;
  }

  /** One more run: its commands follow the earlier ones, and its fate is counted. */
  lemma AppendRun(candidates: seq<Candidate>, runs: seq<Run>, run: Run)
    requires Accounts(candidates, runs, false) && RunOk(run)
    ensures Flatten(runs + [run]) == Flatten(runs) + run.events
    ensures forall fate :: CountFate(runs + [run], fate) == CountFate(runs, fate) + if run.fate == fate then 1 else 0
    ensures Accounts(candidates + [run.candidate], runs + [run], run.fate == Aborted)
  {
    assert (runs + [run])[..|runs|] == runs;
  }

  /** A growing log, cut at an earlier point. */
  lemma LogGrows(start: seq<Event>, before: seq<Event>, log: seq<Event>)
    requires start <= before <= log
    ensures start <= log && log[|start|..] == before[|start|..] + log[|before|..]
  {
  }

  lemma AccountsPrefix(candidates: seq<Candidate>, n: nat, runs: seq<Run>)
    requires n <= |candidates| && Accounts(candidates[..n], runs, true)
    ensures Accounts(candidates, runs, true)
  {
  }

  /** The candidate loop of `prune_merged_branches`; `Err` when a `PruneError` escapes it. */
  method PruneCandidates(git: Git, candidates: seq<Candidate>, keptBefore: nat)
    returns (r: Result<PruneResult, ()>, ghost runs: seq<Run>)
    modifies git
    ensures old(git.log) <= git.log
    ensures git.log[|old(git.log)|..] == Flatten(runs)
    ensures Accounts(candidates, runs, r.Err?)
    ensures r.Ok? ==> r.value == PruneResult(CountFate(runs, Deleted), 0, keptBefore + CountFate(runs, Kept),
                                             CountFate(runs, Failed))
  {
    var deleted, kept, failed := 0, keptBefore, 0;
    runs := [];
    ghost var start := git.log;
    for i := 0 to |candidates|
      invariant start <= git.log && git.log[|start|..] == Flatten(runs)
      invariant |runs| == i && Accounts(candidates[..i], runs, false)
      invariant deleted == CountFate(runs, Deleted)
      invariant kept == keptBefore + CountFate(runs, Kept)
      invariant failed == CountFate(runs, Failed)
    {
      ghost var before := git.log;
      var fate := PruneOne(git, candidates[i]);
      ghost var run := Run(candidates[i], fate, git.log[|before|..]);
      AppendRun(candidates[..i], runs, run);
      TakeNext(candidates, i);
      LogGrows(start, before, git.log);
      runs := runs + [run];
      match fate {
        case Deleted => deleted := deleted + 1;
        case Kept => kept := kept + 1;
        case Failed => failed := failed + 1;
        case Aborted =>
          AccountsPrefix(candidates, i + 1, runs);
          return Err(()), runs;
      }
    }
    TakeAll(candidates);
    r := Ok(PruneResult(deleted, 0, kept, failed));
  }

  // ---- safety over a whole run, whatever the other processes do ----

  /**
   * The only changes of a prune: the removal of a candidate's ref at its merged head, right
   * after a ref list showed that head and a worktree list showed the branch free; or the
   * re-creation of that head, two commands after the prune itself removed it.
   */
  ghost predicate SafeChange(c: Candidate, events: seq<Event>, i: nat)
    requires i < |events|
  {
    || (i >= 2 && events[i].command == DeleteRef(c.branch, c.oid) && Holds(events[i].before, c.branch, c.oid) &&
        events[i].after.refs == events[i].before.refs - {c.branch} &&
        SawHead(c, events[i - 2]) && SawFree(c, events[i - 1]))
    || (i >= 4 && events[i].command == CreateRef(c.branch, c.oid) && c.branch !in events[i].before.refs &&
        events[i].after.refs == events[i].before.refs[c.branch := c.oid] &&
        RemovedHead(c, events[i - 2]))
  }

  lemma {:induction false} OnlyProvenHeadsChange(candidates: seq<Candidate>, runs: seq<Run>, aborted: bool, i: nat)
    requires Accounts(candidates, runs, aborted)
    requires i < |Flatten(runs)| && Flatten(runs)[i].after != Flatten(runs)[i].before
    ensures exists c :: c in candidates && SafeChange(c, Flatten(runs), i)
    ensures Flatten(runs)[i].after.attached == Flatten(runs)[i].before.attached
  {
    var last := |runs| - 1;
    var earlier := Flatten(runs[..last]);
    if i < |earlier| {
      AccountsDropLast(candidates, runs, aborted);
      OnlyProvenHeadsChange(candidates[..last], runs[..last], false, i);
      var c :| c in candidates[..last] && SafeChange(c, earlier, i);
      SafeChangeExtends(c, earlier, runs[last].events, i);
    } else {
      ChangeInRun(runs[last], i - |earlier|);
      SafeChangeShifts(candidates[last], earlier, runs[last].events, i - |earlier|);
    }
  }

  lemma AccountsDropLast(candidates: seq<Candidate>, runs: seq<Run>, aborted: bool)
    requires runs != [] && Accounts(candidates, runs, aborted)
    ensures Accounts(candidates[..|runs| - 1], runs[..|runs| - 1], false)
  {
  }

  lemma SafeChangeExtends(c: Candidate, events: seq<Event>, later: seq<Event>, i: nat)
    requires i < |events| && SafeChange(c, events, i)
    ensures SafeChange(c, events + later, i)
  {
  }

  lemma SafeChangeShifts(c: Candidate, before: seq<Event>, events: seq<Event>, i: nat)
    requires i < |events| && SafeChange(c, events, i)
    ensures SafeChange(c, before + events, |before| + i)
  {
    var all := before + events;
    assert all[|before| + i] == events[i];
    assert all[|before| + (i - 2)] == events[i - 2] && all[|before| + (i - 1)] == events[i - 1];
  }

  lemma ChangeInRun(run: Run, i: nat)
    requires RunOk(run)
    requires i < |run.events| && run.events[i].after != run.events[i].before
    ensures SafeChange(run.candidate, run.events, i)
    ensures run.events[i].after.attached == run.events[i].before.attached
  {
    var attempt := run.events[2..];
    assert i >= 2 && attempt[i - 2] == run.events[i];
    assert LaterEvent(run.candidate, attempt, i - 2);
  }

  /** Once a branch counts as deleted, no later command of the prune is about it. */
  lemma DeletedStaysUntouched(candidates: seq<Candidate>, runs: seq<Run>, aborted: bool, k: nat, j: nat, e: Event)
    requires Accounts(candidates, runs, aborted)
    requires forall a, b :: 0 <= a < b < |candidates| ==> candidates[a].branch != candidates[b].branch
    requires k < j < |runs| && e in runs[j].events
    ensures e.command != CreateRef(candidates[k].branch, candidates[k].oid)
    ensures candidates[k].branch in e.before.refs ==>
              candidates[k].branch in e.after.refs &&
              e.after.refs[candidates[k].branch] == e.before.refs[candidates[k].branch]
  {
    var run := runs[j];
    var i :| 0 <= i < |run.events| && run.events[i] == e;
    if i >= 2 {
      var attempt := run.events[2..];
      assert attempt[i - 2] == e;
      assert LaterEvent(run.candidate, attempt, i - 2);
    }
  }

  /** The reported numbers: each candidate is counted once, as deleted, kept or failed. */
  lemma {:induction false} FatesAddUp(candidates: seq<Candidate>, runs: seq<Run>)
    requires Accounts(candidates, runs, false)
    ensures CountFate(runs, Deleted) + CountFate(runs, Kept) + CountFate(runs, Failed) == |candidates|
  {
    if runs != [] {
      var last := |runs| - 1;
      FatesAddUp(candidates[..last], runs[..last]);
    }
  }
}
