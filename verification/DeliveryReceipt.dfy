/** scripts/batch_integration.py: manifest normalisation and the delivery receipt. */
module DeliveryReceipt {
  import opened Wrappers
  import opened RepoPaths
  import opened BatchRecord

  /** A manifest entry; fields that are missing or not strings are None. */
  datatype Entry = NotAnObject | Entry(id: Option<string>, head: Option<string>)

  datatype Edge = NotAnEdge | Edge(member: Option<string>, dependsOn: Option<string>, evidence: Option<string>)

  datatype Dependency = Dependency(member: string, dependsOn: string, evidence: string)

  datatype Acceptance = Acceptance(integrator: Option<string>, items: Option<map<string, string>>,
                                   dependencies: Option<seq<Edge>>, integrationHead: Option<string>)

  /** What git answers while the receipt is built. */
  datatype RepoView = RepoView(head: string, resolve: string -> Option<string>,
                               committers: (string, string) -> set<string>, isAncestor: (string, string) -> bool,
                               commits: (string, string) -> seq<string>, merges: (string, string) -> seq<string>)

  /** `branch_timestamps`: the first commit and merge since the base, and how many commits there are. */
  datatype History = History(firstCommit: Option<string>, firstMerge: Option<string>, commitCount: nat)

  datatype Receipt = Receipt(batchId: string, baseRef: Option<string>, baseOid: string, integrationHead: string,
                             startedAt: Option<string>, history: History, members: map<string, string>,
                             ancestry: map<string, bool>, integrator: string, acceptance: map<string, string>,
                             dependencies: seq<Dependency>, generatedAt: string)

  datatype Refusal =
    | NoStart | BadMember | DuplicateMember | EmptyManifest | MemberSetDiffers | NoIntegrator | ForeignWork
    | NoItems | ItemSetDiffers | Unaccepted | BadDependency | DuplicateDependency | HeadDiffers | BaseMoved
    | NotIntegrated

  predicate NonEmpty(s: Option<string>) {
    s.Some? && s.value != ""
  }

  // ---- manifest ----

  predicate ValidEntry(e: Entry) {
    e.Entry? && NonEmpty(e.id) && NonEmpty(e.head)
  }

  function IdOf(e: Entry): Option<string> {
    if e.Entry? then e.id else None
  }

  /** The manifest is a list of valid entries with distinct ids. */
  ghost predicate WellFormed(entries: seq<Entry>) {
    && (forall e :: e in entries ==> ValidEntry(e))
    && (forall i, j :: 0 <= i < j < |entries| ==> IdOf(entries[i]) != IdOf(entries[j]))
  }

  /** `members` is what the entries say: the head of each id. */
  ghost predicate Names(members: map<string, string>, entries: seq<Entry>) {
    && (forall e :: e in entries && ValidEntry(e) ==> e.id.value in members && members[e.id.value] == e.head.value)
    && (forall id :: id in members ==> Entry(Some(id), Some(members[id])) in entries)
  }

  lemma NamesIsUnique(m: map<string, string>, m': map<string, string>, entries: seq<Entry>)
    requires Names(m, entries) && Names(m', entries) && WellFormed(entries)
    ensures m == m'
  {
    forall id | id in m
      ensures id in m' && m'[id] == m[id]
    {
      assert ValidEntry(Entry(Some(id), Some(m[id])));
    }
    forall id | id in m'
      ensures id in m
    {
      assert ValidEntry(Entry(Some(id), Some(m'[id])));
    }
  }

  /** `normalize_members`. The source sorts the result by id; the ids are distinct, so a map says as much. */
  method NormalizeMembers(entries: seq<Entry>) returns (r: Result<map<string, string>, Refusal>)
    ensures r.Ok? <==> WellFormed(entries)
    ensures r.Ok? ==> Names(r.value, entries) && |r.value| == |entries|
    ensures r.Err? ==> r.error in {BadMember, DuplicateMember}
  {
    var normalized: map<string, string> := map[];
    for i := 0 to |entries|
      invariant WellFormed(entries[..i]) && Names(normalized, entries[..i])
      invariant |normalized| == i
    {
      var e := entries[i];
      TakeNext(entries, i);
      assert e in entries;
      if !ValidEntry(e) {
        return Err(BadMember);
      }
      if e.id.value in normalized {
        var k :| 0 <= k < i && entries[k] == Entry(e.id, Some(normalized[e.id.value]));
        assert IdOf(entries[k]) == IdOf(entries[i]);
        return Err(DuplicateMember);
      }
      normalized := normalized[e.id.value := e.head.value];
    }
    TakeAll(entries);
    return Ok(normalized);
  }

  // ---- dependencies ----

  predicate ValidEdge(e: Edge, ids: set<string>) {
    && e.Edge? && e.member.Some? && e.dependsOn.Some?
    && e.member.value in ids && e.dependsOn.value in ids && e.member.value != e.dependsOn.value
    && e.evidence.Some? && !Blank(e.evidence.value)
  }

  function Endpoints(e: Edge): Option<(string, string)> {
    if e.Edge? && e.member.Some? && e.dependsOn.Some? then Some((e.member.value, e.dependsOn.value)) else None
  }

  ghost predicate ValidEdges(edges: seq<Edge>, ids: set<string>) {
    && (forall e :: e in edges ==> ValidEdge(e, ids))
    && (forall i, j :: 0 <= i < j < |edges| ==> Endpoints(edges[i]) != Endpoints(edges[j]))
  }

  /** The edges in order, with trimmed evidence. */
  ghost predicate Trims(dependencies: seq<Dependency>, edges: seq<Edge>) {
    && |dependencies| == |edges|
    && forall i :: 0 <= i < |edges| ==>
         edges[i].Edge? && edges[i].evidence.Some? &&
         Endpoints(edges[i]) == Some((dependencies[i].member, dependencies[i].dependsOn)) &&
         dependencies[i].evidence == Strip(edges[i].evidence.value)
  }

  /** `normalize_dependencies`: the edges in order, with distinct, different, manifested endpoints. */
  method NormalizeDependencies(edges: Option<seq<Edge>>, ids: set<string>) returns (r: Result<seq<Dependency>, Refusal>)
    ensures r.Ok? <==> edges.None? || ValidEdges(edges.value, ids)
    ensures r.Ok? && edges.None? ==> r.value == []
    ensures r.Ok? && edges.Some? ==> Trims(r.value, edges.value)
    ensures r.Err? ==> r.error in {BadDependency, DuplicateDependency}
  {
    if edges.None? {
      return Ok([]);
    }
    var list := edges.value;
    var normalized: seq<Dependency> := [];
    var seen: set<(string, string)> := {};
    for i := 0 to |list|
      invariant ValidEdges(list[..i], ids)
      invariant forall p :: p in seen <==> exists k :: 0 <= k < i && Endpoints(list[k]) == Some(p)
      invariant Trims(normalized, list[..i])
    {
      var e := list[i];
      TakeNext(list, i);
      assert e in list;
      if !ValidEdge(e, ids) {
        return Err(BadDependency);
      }
      var identity := (e.member.value, e.dependsOn.value);
      assert Endpoints(e) == Some(identity);
      if identity in seen {
        var k :| 0 <= k < i && Endpoints(list[k]) == Some(identity);
        assert Endpoints(list[k]) == Endpoints(list[i]);
        return Err(DuplicateDependency);
      }
      seen := seen + {identity};
      normalized := normalized + [Dependency(e.member.value, e.dependsOn.value, Strip(e.evidence.value))];
    }
    TakeAll(list);
    return Ok(normalized);
  }

  // ---- the receipt ----

  /** Every gate of `delivery_receipt`, for the batch that was read and the normalised manifest. */
  ghost predicate GatesPass(batch: Batch, members: map<string, string>, a: Acceptance, view: RepoView) {
    && NonEmpty(batch.baseOid)
    && members != map[] && members.Keys == batch.members
    && NonEmpty(a.integrator)
    && view.committers(batch.baseOid.value, view.head) <= {a.integrator.value}
    && a.items.Some? && a.items.value.Keys == members.Keys
    && (forall id :: id in members ==> a.items.value[id] == "pass")
    && (a.dependencies.None? || ValidEdges(a.dependencies.value, members.Keys))
    && a.integrationHead == Some(view.head)
    && view.resolve(BaseRefText(batch)) == batch.baseOid
    && (forall id :: id in members ==> view.isAncestor(members[id], view.head))
  }

  /** A receipt is due: a batch is recorded, the manifest is well formed, and every gate passes. */
  ghost predicate Due(config: Config, entries: seq<Entry>, a: Acceptance, view: RepoView) {
    && ReadBatch(config).Some? && WellFormed(entries)
    && exists members :: Names(members, entries) && GatesPass(ReadBatch(config).value, members, a, view)
  }

  function First(lines: seq<string>): Option<string> {
    if lines == [] then None else Some(lines[0])
  }

  function HistoryOf(view: RepoView, base: string): History {
    History(First(view.commits(base, view.head)), First(view.merges(base, view.head)), |view.commits(base, view.head)|)
  }

  /** The receipt repeats what the gates checked, and every member head is in the integration head. */
  ghost predicate Binds(r: Receipt, batch: Batch, a: Acceptance, view: RepoView) {
    && GatesPass(batch, r.members, a, view)
    && r.batchId == batch.id && r.baseRef == batch.baseRef && Some(r.baseOid) == batch.baseOid
    && r.startedAt == batch.startedAt && r.integrationHead == view.head
    && Some(r.integrator) == a.integrator && Some(r.acceptance) == a.items
    && r.history == HistoryOf(view, r.baseOid)
    && r.ancestry.Keys == r.members.Keys && (forall id :: id in r.members ==> r.ancestry[id])
    && (if a.dependencies.Some? then Trims(r.dependencies, a.dependencies.value) else r.dependencies == [])
  }

  function BaseRefText(batch: Batch): string {
    match batch.baseRef
    case Some(ref) => ref
    case None => "None"
  }

  /** `delivery_receipt`: granted exactly when every gate passes, and bound to what they checked. */
  method IssueReceipt(config: Config, entries: seq<Entry>, a: Acceptance, view: RepoView, now: string)
    returns (r: Result<Receipt, Refusal>)
    ensures r.Ok? <==> Due(config, entries, a, view)
    ensures r.Ok? ==> ReadBatch(config).Some? && Names(r.value.members, entries) &&
                      Binds(r.value, ReadBatch(config).value, a, view) && r.value.generatedAt == now
  {
    var read := ReadBatch(config);
    if read.None? || !NonEmpty(read.value.baseOid) {
      return Err(NoStart);
    }
    var members := NormalizeMembers(entries);
    if members.Err? {
      return Err(members.error);
    }
    var gates := CheckGates(read.value, members.value, a, view);
    assert forall m :: Names(m, entries) ==> m == members.value by {
      forall m | Names(m, entries)
        ensures m == members.value
      {
        NamesIsUnique(m, members.value, entries);
      }
    }
    if gates.Err? {
      return Err(gates.error);
    }
    var ancestry := map id | id in members.value :: view.isAncestor(members.value[id], view.head);
    return Ok(Receipt(read.value.id, read.value.baseRef, read.value.baseOid.value, view.head, read.value.startedAt,
                      HistoryOf(view, read.value.baseOid.value), members.value, ancestry, a.integrator.value,
                      a.items.value, gates.value, now));
  }

  /** The gates after the manifest, in the order they are tried; yields the dependencies. */
  method CheckGates(batch: Batch, members: map<string, string>, a: Acceptance, view: RepoView)
    returns (r: Result<seq<Dependency>, Refusal>)
    requires NonEmpty(batch.baseOid)
    ensures r.Ok? <==> GatesPass(batch, members, a, view)
    ensures r.Ok? ==> if a.dependencies.Some? then Trims(r.value, a.dependencies.value) else r.value == []
  {
    if members == map[] {
      return Err(EmptyManifest);
    }
    if members.Keys != batch.members {
      return Err(MemberSetDiffers);
    }
    if !NonEmpty(a.integrator) {
      return Err(NoIntegrator);
    }
    if !(view.committers(batch.baseOid.value, view.head) <= {a.integrator.value}) {
      return Err(ForeignWork);
    }
    if a.items.None? {
      return Err(NoItems);
    }
    if a.items.value.Keys != members.Keys {
      return Err(ItemSetDiffers);
    }
    if exists id :: id in members && a.items.value[id] != "pass" {
      return Err(Unaccepted);
    }
    var dependencies := NormalizeDependencies(a.dependencies, members.Keys);
    if dependencies.Err? {
      return Err(dependencies.error);
    }
    if a.integrationHead != Some(view.head) {
      return Err(HeadDiffers);
    }
    if view.resolve(BaseRefText(batch)) != batch.baseOid {
      return Err(BaseMoved);
    }
    if exists id :: id in members && !view.isAncestor(members[id], view.head) {
      return Err(NotIntegrated);
    }
    return dependencies;
  }

  // ---- what a receipt binds ----

  /**
   * Two receipts issued for one acceptance, whatever the batches and repositories, are for the
   * same head and integrator, the same member ids and items, and the same dependencies.
   */
  lemma AcceptanceBindsOneHead(r: Receipt, r': Receipt, batch: Batch, batch': Batch, a: Acceptance, view: RepoView,
                               view': RepoView)
    requires Binds(r, batch, a, view) && Binds(r', batch', a, view')
    ensures r.integrationHead == r'.integrationHead && r.integrator == r'.integrator
    ensures r.members.Keys == r'.members.Keys && r.acceptance == r'.acceptance
    ensures r.dependencies == r'.dependencies
  {
    if a.dependencies.Some? {
      TrimsOnce(r.dependencies, r'.dependencies, a.dependencies.value);
    }
  }

  lemma TrimsOnce(d: seq<Dependency>, d': seq<Dependency>, edges: seq<Edge>)
    requires Trims(d, edges) && Trims(d', edges)
    ensures d == d'
  {
    forall i | 0 <= i < |edges|
      ensures d[i] == d'[i]
    {
      assert Endpoints(edges[i]) == Some((d[i].member, d[i].dependsOn));
      assert Endpoints(edges[i]) == Some((d'[i].member, d'[i].dependsOn));
    }
  }

  /**
   * The receipt rests on operation `i` of the history: a completed start with no effective
   * reset after it, whose id, base, time and member set are the ones the gates checked.
   */
  ghost predicate RestsOn(h: seq<Op>, i: nat, a: Acceptance, view: RepoView) {
    && CompletedStart(h, i) && ReadBatch(Run(h)) == Some(AsRead(h[i].args))
    && (forall j :: i < j < |h| && h[j].Reset? ==> h[j].writes == 0)
    && a.items.Some? && a.items.value.Keys == h[i].args.members && a.integrationHead == Some(view.head)
    && view.resolve(BaseRefText(AsRead(h[i].args))) == Some(Strip(h[i].args.baseOid))
  }

  /**
   * A receipt issued after any history of crashing starts and resets (with non-blank ids)
   * certifies one completed start.
   */
  lemma ReceiptCertifiesOneStart(h: seq<Op>, entries: seq<Entry>, a: Acceptance, view: RepoView)
    requires NonBlankIds(h) && Due(Run(h), entries, a, view)
    ensures exists i: nat :: RestsOn(h, i, a, view)
  {
    ReadReturnsTheLiveStart(h);
    var i := LiveIsCompleted(h);
    assert RestsOn(h, i, a, view);
  }
}
