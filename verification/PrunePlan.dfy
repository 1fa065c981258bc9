/** scripts/branch_prune_merged.py: the evidence that makes a local branch a candidate. */
module PrunePlan {
  import opened Wrappers
  import opened GitRefs
  import opened BranchPrune

  const PROTECTED: set<string> := {"develop", "main", "release", "published-results"}
  const TARGET: string := "develop"

  /** The fields of a pull request the plan reads. */
  datatype PullRequest = PullRequest(number: Option<int>, baseRef: Option<string>, mergedAt: Option<string>,
                                     state: string, mergeCommit: Option<string>)

  /** One timeline record; ids that are not strings are None. */
  datatype TimelineEvent =
    | Committed(sha: Option<string>)
    | ForcePushed(commitId: Option<string>)
    | Merged(mergeCommit: Option<string>)
    | OtherEvent

  /** The answers of `gh` and of the ancestry test; any query can fail. */
  datatype Evidence = Evidence(
    prs: string -> Result<seq<PullRequest>, ()>,
    timeline: int -> Result<seq<TimelineEvent>, ()>,
    commits: int -> Result<seq<Option<string>>, ()>,
    reachable: string -> Result<bool, ()>)

  // ---- the head at merge time ----

  /** The branch head an event reports, if it reports one. */
  function HeadOf(e: TimelineEvent): Option<string> {
    match e
    case Committed(sha) => sha
    case ForcePushed(id) => id
    case _ => None
  }

  /** `h` is the last head reported before the first merge event, which carries the expected commit. */
  ghost predicate HeadAtMerge(timeline: seq<TimelineEvent>, expected: string, h: string) {
    exists m, j ::
      && 0 <= j < m < |timeline|
      && timeline[m] == Merged(Some(expected)) && (forall k :: 0 <= k < m ==> !timeline[k].Merged?)
      && HeadOf(timeline[j]) == Some(h) && (forall k :: j < k < m ==> HeadOf(timeline[k]) == None)
  }

  /** The scan of the timeline in `get_historical_head_at_merge`. */
  method TimelineHead(timeline: seq<TimelineEvent>, expected: string) returns (head: Option<string>)
    ensures forall h :: head == Some(h) <==> HeadAtMerge(timeline, expected, h) && h != ""
  {
    head := None;
    ghost var at := -1;
    for i := 0 to |timeline|
      invariant forall k :: 0 <= k < i ==> !timeline[k].Merged?
      invariant -1 <= at < i
      invariant forall k :: at < k < i ==> HeadOf(timeline[k]) == None
      invariant at == -1 ==> head == None
      invariant at >= 0 ==> head.Some? && HeadOf(timeline[at]) == head
    {
      match timeline[i] {
        case Committed(sha) =>
          if sha.Some? { head, at := sha, i; }
        case ForcePushed(id) =>
          if id.Some? { head, at := id, i; }
        case Merged(commit) =>
          if commit != Some(expected) || head == Some("") {
            return None;
          }
          assert head.Some? ==> HeadAtMerge(timeline, expected, head.value);
          return;
        case OtherEvent =>
      }
    }
    head := None;
  }

  /** `get_historical_head_at_merge`. */
  method GetHistoricalHead(ev: Evidence, number: int, expected: string) returns (r: Result<Option<string>, ()>)
    ensures forall h :: r == Ok(Some(h)) <==> ProvenHead(ev, number, expected, h)
  {
    var timeline := ev.timeline(number);
    if timeline.Err? {
      return Err(());
    }
    var head := TimelineHead(timeline.value, expected);
    if head.None? {
      return Ok(None);
    }
    var commits := ev.commits(number);
    if commits.Err? {
      return Err(());
    }
    if commits.value == [] || commits.value[|commits.value| - 1] != head {
      return Ok(None);
    }
    return Ok(head);
  }

  /** Both sources agree that the pull request was merged from head `h`. */
  ghost predicate ProvenHead(ev: Evidence, number: int, expected: string, h: string) {
    && ev.timeline(number).Ok? && HeadAtMerge(ev.timeline(number).value, expected, h) && h != ""
    && ev.commits(number).Ok? && ev.commits(number).value != []
    && ev.commits(number).value[|ev.commits(number).value| - 1] == Some(h)
  }

  /** At most one head can be proven. */
  lemma ProvenHeadIsUnique(ev: Evidence, number: int, expected: string, h: string, h': string)
    requires ProvenHead(ev, number, expected, h) && ProvenHead(ev, number, expected, h')
    ensures h == h'
  {
  }

  // ---- the latest pull request ----

  /** `_latest_pr`: the first pull request with the highest number. */
  method LatestPr(prs: seq<PullRequest>) returns (latest: Option<PullRequest>)
    ensures latest.None? <==> forall p :: p in prs ==> p.number.None?
    ensures latest.Some? ==> IsLatest(prs, latest.value)
  {
    latest := None;
    ghost var at := 0;
    for i := 0 to |prs|
      invariant latest.None? <==> forall k :: 0 <= k < i ==> prs[k].number.None?
      invariant latest.Some? ==> 0 <= at < i && prs[at] == latest.value && LatestAt(prs[..i], at)
    {
      if prs[i].number.Some? && (latest.None? || prs[i].number.value > latest.value.number.value) {
        latest, at := Some(prs[i]), i;
      }
    }
    assert prs[..|prs|] == prs;
  }

  ghost predicate LatestAt(prs: seq<PullRequest>, i: int) {
    && 0 <= i < |prs| && prs[i].number.Some?
    && (forall k :: 0 <= k < |prs| && prs[k].number.Some? ==> prs[k].number.value <= prs[i].number.value)
    && (forall k :: 0 <= k < i && prs[k].number.Some? ==> prs[k].number.value < prs[i].number.value)
  }

  ghost predicate IsLatest(prs: seq<PullRequest>, pr: PullRequest) {
    exists i :: LatestAt(prs, i) && prs[i] == pr
  }

  // ---- the plan ----

  /** The latest pull request is closed, merged into the target, and names its merge commit. */
  predicate MergedIntoTarget(pr: PullRequest) {
    && pr.baseRef == Some(TARGET)
    && pr.mergedAt.Some? && pr.mergedAt.value != "" && pr.state == "closed"
    && pr.mergeCommit.Some? && pr.mergeCommit.value != ""
  }

  /** All the evidence for deleting `c`. */
  ghost predicate Proven(ev: Evidence, c: Candidate) {
    && ev.prs(c.branch).Ok?
    && exists pr :: IsLatest(ev.prs(c.branch).value, pr) && MergedIntoTarget(pr) &&
         pr.number == Some(c.prNumber) && pr.mergeCommit == Some(c.mergeCommit) &&
         ProvenHead(ev, c.prNumber, c.mergeCommit, c.oid) && ev.reachable(c.mergeCommit) == Ok(true)
  }

  ghost predicate NoProof(ev: Evidence, branch: string, oid: string) {
    forall c: Candidate | c.branch == branch && c.oid == oid :: !Proven(ev, c)
  }

  /** The branch has a pull request, but not the proof: it is counted as kept. */
  ghost predicate KeptBack(ev: Evidence, branch: string, oid: string) {
    && ev.prs(branch).Ok? && (exists p :: p in ev.prs(branch).value && p.number.Some?)
    && NoProof(ev, branch, oid)
  }

  /** A branch the plan looks at. */
  predicate Considered(branch: string, current: Option<string>, attached: set<string>) {
    branch !in PROTECTED && current != Some(branch) && branch !in attached
  }

  datatype Verdict = Skip | Keep | Propose(candidate: Candidate)

  /** The evidence gathered for one considered branch. */
  method Judge(ev: Evidence, branch: string, oid: string) returns (r: Result<Verdict, ()>)
    ensures r.Ok? && r.value.Propose? ==>
              r.value.candidate.branch == branch && r.value.candidate.oid == oid && Proven(ev, r.value.candidate)
    ensures r.Ok? && !r.value.Propose? ==> NoProof(ev, branch, oid)
    ensures r.Ok? ==> (r.value == Keep <==> KeptBack(ev, branch, oid))
  {
    var prs := ev.prs(branch);
    if prs.Err? {
      return Err(());
    }
    var latest := LatestPr(prs.value);
    if latest.None? {
      return Ok(Skip);
    }
    var pr := latest.value;
    if !MergedIntoTarget(pr) {
      return Ok(Keep);
    }
    var head := GetHistoricalHead(ev, pr.number.value, pr.mergeCommit.value);
    if head.Err? {
      return Err(());
    }
    if head.value != Some(oid) {
      return Ok(Keep);
    }
    var reachable := ev.reachable(pr.mergeCommit.value);
    if reachable.Err? {
      return Err(());
    }
    if !reachable.value {
      return Ok(Keep);
    }
    return Ok(Propose(Candidate(branch, oid, pr.number.value, pr.mergeCommit.value)));
  }

  /** The candidates and kept count are those of the branches judged so far. */
  ghost predicate PlanOf(ev: Evidence, refs: map<string, string>, current: Option<string>, attached: set<string>,
                         done: set<string>, candidates: seq<Candidate>) {
    && (forall i, j :: 0 <= i < j < |candidates| ==> candidates[i].branch != candidates[j].branch)
    && (forall c :: c in candidates <==>
                    c.branch in done && c.branch in refs && refs[c.branch] == c.oid &&
                    Considered(c.branch, current, attached) && Proven(ev, c))
  }

  ghost function KeptBranches(ev: Evidence, refs: map<string, string>, current: Option<string>, attached: set<string>,
                              done: set<string>): set<string> {
    set b | b in done && b in refs && Considered(b, current, attached) && KeptBack(ev, b, refs[b])
  }

  lemma KeptBranchesStep(ev: Evidence, refs: map<string, string>, current: Option<string>, attached: set<string>,
                         done: set<string>, branch: string)
    requires branch in refs && branch !in done
    ensures |KeptBranches(ev, refs, current, attached, done + {branch})| ==
            |KeptBranches(ev, refs, current, attached, done)| +
            if Considered(branch, current, attached) && KeptBack(ev, branch, refs[branch]) then 1 else 0
  {
    var before := KeptBranches(ev, refs, current, attached, done);
    var after := KeptBranches(ev, refs, current, attached, done + {branch});
    if Considered(branch, current, attached) && KeptBack(ev, branch, refs[branch]) {
      assert after == before + {branch};
    } else {
      assert after == before;
    }
  }

  /**
   * `_plan_candidates`: one candidate for each considered branch whose head is proven to be
   * the merged one, and none for any other branch.
   */
  method PlanCandidates(git: Git, ev: Evidence, current: Option<string>)
    returns (r: Result<(seq<Candidate>, nat), ()>, ghost refs: map<string, string>, ghost attached: set<string>)
    modifies git
    ensures old(git.log) <= git.log
    ensures forall i :: |old(git.log)| <= i < |git.log| ==> git.log[i].after == git.log[i].before
    ensures r.Ok? ==> PlanOf(ev, refs, current, attached, refs.Keys, r.value.0)
    ensures r.Ok? ==> r.value.1 == |KeptBranches(ev, refs, current, attached, refs.Keys)|
    ensures r.Ok? ==> |git.log| == |old(git.log)| + 2 &&
                      git.log[|old(git.log)|].before.refs == refs &&
                      git.log[|old(git.log)| + 1].before.attached == attached
  {
    refs, attached := map[], {};
    var branches := git.LocalBranches();
    if branches.Err? {
      r := Err(());
      return;
    }
    var worktrees := git.WorktreeBranches();
    if worktrees.Err? {
      r := Err(());
      return;
    }
    refs, attached := branches.value, worktrees.value;
    r := JudgeAll(ev, branches.value, current, worktrees.value);
  }

  /** The branch loop of `_plan_candidates`. */
  method JudgeAll(ev: Evidence, refs: map<string, string>, current: Option<string>, attached: set<string>)
    returns (r: Result<(seq<Candidate>, nat), ()>)
    ensures r.Ok? ==> PlanOf(ev, refs, current, attached, refs.Keys, r.value.0)
    ensures r.Ok? ==> r.value.1 == |KeptBranches(ev, refs, current, attached, refs.Keys)|
  {
    var candidates, kept: nat := [], 0;
    var rest := refs.Keys;
    while rest != {}
      invariant rest <= refs.Keys
      invariant PlanOf(ev, refs, current, attached, refs.Keys - rest, candidates)
      invariant kept == |KeptBranches(ev, refs, current, attached, refs.Keys - rest)|
    {
      var branch :| branch in rest;
      KeptBranchesStep(ev, refs, current, attached, refs.Keys - rest, branch);
      assert refs.Keys - rest + {branch} == refs.Keys - (rest - {branch});
      rest := rest - {branch};
      if Considered(branch, current, attached) {
        var verdict := Judge(ev, branch, refs[branch]);
        if verdict.Err? {
          return Err(());
        }
        match verdict.value {
          case Skip =>
          case Keep => kept := kept + 1;
          case Propose(c) =>
            ProvenIsUnique(ev, c);
            candidates := candidates + [c];
        }
      }
    }
    assert refs.Keys - rest == refs.Keys;
    r := Ok((candidates, kept));
  }

  lemma ProvenIsUnique(ev: Evidence, c: Candidate)
    requires Proven(ev, c)
    ensures forall d: Candidate | d.branch == c.branch && Proven(ev, d) :: d == c
  {
    forall d: Candidate | d.branch == c.branch && Proven(ev, d)
      ensures d == c
    {
      var prs := ev.prs(c.branch).value;
      var p, q :| IsLatest(prs, p) && p.number == Some(c.prNumber) && p.mergeCommit == Some(c.mergeCommit) &&
                  IsLatest(prs, q) && q.number == Some(d.prNumber) && q.mergeCommit == Some(d.mergeCommit);
      LatestIsUnique(prs, p, q);
      ProvenHeadIsUnique(ev, c.prNumber, c.mergeCommit, c.oid, d.oid);
    }
  }

  lemma LatestIsUnique(prs: seq<PullRequest>, p: PullRequest, q: PullRequest)
    requires IsLatest(prs, p) && IsLatest(prs, q)
    ensures p == q
  {
    var i :| LatestAt(prs, i) && prs[i] == p;
    var j :| LatestAt(prs, j) && prs[j] == q;
  }

  /** `prune_merged_branches`: plan, then report (dry run) or prune. */
  method PruneMergedBranches(git: Git, ev: Evidence, current: Option<string>, dryRun: bool)
    returns (r: Result<PruneResult, ()>, ghost candidates: seq<Candidate>, ghost planEnd: nat, ghost runs: seq<Run>,
             ghost kept: nat)
    modifies git
    ensures |old(git.log)| <= planEnd <= |git.log| && old(git.log) <= git.log
    ensures forall i :: |old(git.log)| <= i < planEnd ==> git.log[i].after == git.log[i].before
    ensures git.log[planEnd..] == Flatten(runs)
    ensures forall c :: c in candidates ==> Proven(ev, c) && c.branch !in PROTECTED && current != Some(c.branch)
    ensures forall i, j :: 0 <= i < j < |candidates| ==> candidates[i].branch != candidates[j].branch
    ensures runs != [] ==> !dryRun && Accounts(candidates, runs, r.Err?)
    ensures r.Ok? && dryRun ==> runs == [] && r.value == PruneResult(0, |candidates|, kept, 0)
    ensures r.Ok? && !dryRun ==> Accounts(candidates, runs, false) &&
                                 r.value == PruneResult(CountFate(runs, Deleted), 0, kept + CountFate(runs, Kept),
                                                        CountFate(runs, Failed))
    ensures r.Ok? ==> planEnd == |old(git.log)| + 2 &&
                      kept == |KeptBranches(ev, git.log[planEnd - 2].before.refs, current,
                                            git.log[planEnd - 1].before.attached,
                                            git.log[planEnd - 2].before.refs.Keys)|
  {
    candidates, runs, kept := [], [], 0;
    var plan, refs, attached := PlanCandidates(git, ev, current);
    planEnd := |git.log|;
    if plan.Err? {
      r := Err(());
      return;
    }
    candidates, kept := plan.value.0, plan.value.1;
    if dryRun {
      r := Ok(PruneResult(0, |plan.value.0|, plan.value.1, 0));
      return;
    }
    r, runs := PruneCandidates(git, plan.value.0, plan.value.1);
  }
}
