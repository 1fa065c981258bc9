/**
 * The git primitives that scripts/branch_prune_merged.py uses, each one atomic, in a
 * repository that other processes change between any two of them.
 */
module GitRefs {
  import opened Wrappers

  /** Local branch heads, and the branches some worktree has checked out. */
  datatype Repo = Repo(refs: map<string, string>, attached: set<string>)

  /**
   * How one command fares: it runs, it exits non-zero without effect whatever the state, or
   * it cannot be run to completion (`PruneError`), with or without its effect.
   */
  datatype Fault = Runs | Refused | Lost(applied: bool)

  /**
   * The adversary: what the other processes make of the repository before the n-th command,
   * and how that command fares. Any interleaving is one such pair of functions.
   */
  datatype World = World(interfere: (nat, Repo) -> Repo, fault: nat -> Fault)

  datatype Command =
    | DeleteRef(branch: string, expected: string)
    | CreateRef(branch: string, oid: string)
    | ListRefs
    | ListWorktrees

  datatype Exit = Success | NonZero | Raised

  /** One command, the repository it acted on, what it left, and how it exited. */
  datatype Event = Event(command: Command, before: Repo, after: Repo, exit: Exit)

  /** A ref of `before` that is gone in `after`, or holds something else. */
  predicate Removes(e: Event, branch: string) {
    branch in e.before.refs && (branch !in e.after.refs || e.after.refs[branch] != e.before.refs[branch])
  }

  /** Compare-and-swap: a command changes at most its own ref, and only from the expected value. */
  predicate Atomic(e: Event) {
    || e.after == e.before
    || (e.command.DeleteRef? && Holds(e.before, e.command.branch, e.command.expected) &&
        e.after == e.before.(refs := e.before.refs - {e.command.branch}))
    || (e.command.CreateRef? && e.command.branch !in e.before.refs &&
        e.after == e.before.(refs := e.before.refs[e.command.branch := e.command.oid]))
  }

  predicate Holds(repo: Repo, branch: string, oid: string) {
    branch in repo.refs && repo.refs[branch] == oid
  }

  class Git {
    const world: World
    var repo: Repo
    ghost var log: seq<Event>
    var clock: nat

    constructor (world: World, repo: Repo)
      ensures this.world == world && log == []
    {
      this.world := world;
      this.repo := repo;
      clock := 0;
      log := [];
    }

    /** `git update-ref -d refs/heads/<branch> <expected>`. */
    method UpdateRefDelete(branch: string, expected: string) returns (exit: Exit)
      modifies this
      ensures |log| == |old(log)| + 1 && old(log) <= log
      ensures var e := log[|old(log)|];
              && e.command == DeleteRef(branch, expected) && e.exit == exit && Atomic(e)
              && (exit == Success ==> Removes(e, branch))
              && (exit == NonZero ==> e.after == e.before)
    {
      repo := world.interfere(clock, repo);
      ghost var before := repo;
      var matches := branch in repo.refs && repo.refs[branch] == expected;
      var fault := world.fault(clock);
      clock := clock + 1;
      if matches && (fault == Runs || fault == Lost(true)) {
        repo := repo.(refs := repo.refs - {branch});
      }
      exit := if fault.Lost? then Raised else if matches && fault.Runs? then Success else NonZero;
      log := log + [Event(DeleteRef(branch, expected), before, repo, exit)];
    }

    /** `git update-ref refs/heads/<branch> <oid> <forty zeros>`: create, unless it exists. */
    method UpdateRefCreate(branch: string, oid: string) returns (exit: Exit)
      modifies this
      ensures |log| == |old(log)| + 1 && old(log) <= log
      ensures var e := log[|old(log)|];
              && e.command == CreateRef(branch, oid) && e.exit == exit && Atomic(e)
              && (exit == Success ==> Holds(e.after, branch, oid))
              && (exit == NonZero ==> e.after == e.before)
    {
      repo := world.interfere(clock, repo);
      ghost var before := repo;
      var free := branch !in repo.refs;
      var fault := world.fault(clock);
      clock := clock + 1;
      if free && (fault == Runs || fault == Lost(true)) {
        repo := repo.(refs := repo.refs[branch := oid]);
      }
      exit := if fault.Lost? then Raised else if free && fault.Runs? then Success else NonZero;
      log := log + [Event(CreateRef(branch, oid), before, repo, exit)];
    }

    /** `get_local_branches`; a failing command raises. */
    method LocalBranches() returns (r: Result<map<string, string>, ()>)
      modifies this
      ensures |log| == |old(log)| + 1 && old(log) <= log
      ensures var e := log[|old(log)|];
              && e.command == ListRefs && e.after == e.before
              && e.exit == (if r.Ok? then Success else Raised) && (r.Ok? ==> r.value == e.before.refs)
    {
      repo := world.interfere(clock, repo);
      r := if world.fault(clock).Runs? then Ok(repo.refs) else Err(());
      log := log + [Event(ListRefs, repo, repo, if r.Ok? then Success else Raised)];
      clock := clock + 1;
    }

    /** `get_worktree_branches`; a failing command raises. */
    method WorktreeBranches() returns (r: Result<set<string>, ()>)
      modifies this
      ensures |log| == |old(log)| + 1 && old(log) <= log
      ensures var e := log[|old(log)|];
              && e.command == ListWorktrees && e.after == e.before
              && e.exit == (if r.Ok? then Success else Raised) && (r.Ok? ==> r.value == e.before.attached)
    {
      repo := world.interfere(clock, repo);
      r := if world.fault(clock).Runs? then Ok(repo.attached) else Err(());
      log := log + [Event(ListWorktrees, repo, repo, if r.Ok? then Success else Raised)];
      clock := clock + 1;
    }
  }
}
