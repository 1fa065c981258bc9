/**
 * scripts/batch_integration.py: the batch start record in per-worktree git config. A
 * process can die between any two config writes; the seal is written last and removed first.
 */
module BatchRecord {
  import opened Wrappers
  import opened RepoPaths

  datatype Key = Id | BaseRef | BaseOid | StartedAt | Members | Sealed

  /** A config value: text, or the JSON of a member set (sorted, without duplicates). */
  datatype Value = Text(text: string) | Json(members: set<string>)

  type Config = map<Key, Value>

  /** What one `start` records; the base commit and the time are read before the first write. */
  datatype StartArgs = StartArgs(id: string, baseRef: string, baseOid: string, startedAt: string, members: set<string>)

  /** What `read_batch` returns. */
  datatype Batch = Batch(id: string, baseRef: Option<string>, baseOid: Option<string>, startedAt: Option<string>,
                         members: set<string>)

  predicate Blank(s: string) {
    Strip(s) == ""
  }

  /** `_config_get` on a text: stripped, and None when blank. */
  function Clean(s: string): Option<string> {
    if Blank(s) then None else Some(Strip(s))
  }

  /** `_config_get` for the text keys. */
  function GetText(config: Config, key: Key): Option<string> {
    if key in config && config[key].Text? then Clean(config[key].text) else None
  }

  /** `read_batch`. */
  function ReadBatch(config: Config): Option<Batch> {
    var id := GetText(config, Id);
    if id.None? || GetText(config, Sealed) != Some("1") then None
    else
      Some(Batch(id.value, GetText(config, BaseRef), GetText(config, BaseOid), GetText(config, StartedAt),
                 if Members in config && config[Members].Json? then config[Members].members else {}))
  }

  // ---- specification: one operation, cut off after some writes ----

  /** The writes of `record_start`, in order. */
  function Writes(a: StartArgs): seq<(Key, Value)> {
    [(Id, Text(a.id)), (BaseRef, Text(a.baseRef)), (BaseOid, Text(a.baseOid)), (StartedAt, Text(a.startedAt)),
     (Members, Json(a.members)), (Sealed, Text("1"))]
  }

  /** The deletions of `reset_batch`, in order. */
  const RESET_ORDER: seq<Key> := [Sealed, Id, BaseRef, BaseOid, StartedAt, Members]

  /** The config after the first `n` writes of a start. */
  function Put(config: Config, a: StartArgs, n: nat): Config
    requires n <= 6
    decreases n
  {
    if n == 0 then config else Put(config, a, n - 1)[Writes(a)[n - 1].0 := Writes(a)[n - 1].1]
  }

  /** The config after the first `n` deletions of a reset. */
  function Drop(config: Config, n: nat): Config
    requires n <= 6
    decreases n
  {
    if n == 0 then config else Drop(config, n - 1) - {RESET_ORDER[n - 1]}
  }

  function AtMostSix(n: nat): nat {
    if n < 6 then n else 6
  }

  /** A start or a reset of which at most `writes` writes reach the config. */
  datatype Op = Start(args: StartArgs, writes: nat) | Reset(writes: nat)

  predicate Accepts(config: Config) {
    GetText(config, Id).None?
  }

  function Apply(config: Config, op: Op): Config {
    match op
    case Start(a, n) => if Accepts(config) then Put(config, a, AtMostSix(n)) else config
    case Reset(n) => Drop(config, AtMostSix(n))
  }

  /** The config after a history of operations on a fresh worktree. */
  function Run(h: seq<Op>): Config {
    if h == [] then map[] else Apply(Run(h[..|h| - 1]), h[|h| - 1])
  }

  // ---- the code ----

  datatype StartResult = Refused | Died | Recorded(batch: Batch)

  class Worktree {
    var config: Config
    /** How many more writes this process lives to make. */
    var writesLeft: nat

    constructor ()
      ensures config == map[]
    {
      config, writesLeft := map[], 0;
    }

    /** `_config_set`; false when the process does not get that far. */
    method ConfigSet(key: Key, value: Value) returns (alive: bool)
      modifies this
      ensures alive == (old(writesLeft) > 0)
      ensures alive ==> config == old(config)[key := value] && writesLeft == old(writesLeft) - 1
      ensures !alive ==> config == old(config) && writesLeft == 0
    {
      alive := writesLeft > 0;
      if alive {
        config, writesLeft := config[key := value], writesLeft - 1;
      }
    }

    /** `_config_delete`: deleting a missing key is not an error. */
    method ConfigDelete(key: Key) returns (alive: bool)
      modifies this
      ensures alive == (old(writesLeft) > 0)
      ensures alive ==> config == old(config) - {key} && writesLeft == old(writesLeft) - 1
      ensures !alive ==> config == old(config) && writesLeft == 0
    {
      alive := writesLeft > 0;
      if alive {
        config, writesLeft := config - {key}, writesLeft - 1;
      }
    }

    /** `record_start`, in a process that dies after `lifetime` writes. */
    method RecordStart(a: StartArgs, lifetime: nat) returns (r: StartResult)
      modifies this
      ensures config == Apply(old(config), Start(a, lifetime))
      ensures r == Refused <==> !Accepts(old(config))
      ensures r == Died <==> Accepts(old(config)) && lifetime < 6
      ensures r.Recorded? ==> r.batch == Batch(a.id, Some(a.baseRef), Some(a.baseOid), Some(a.startedAt), a.members)
    {
      if GetText(config, Id).Some? {
        return Refused;
      }
      writesLeft := lifetime;
      var alive := ConfigSet(Id, Text(a.id));
      if !alive {
        return Died;
      }
      assert config == Put(old(config), a, 1);
      alive := ConfigSet(BaseRef, Text(a.baseRef));
      if !alive {
        return Died;
      }
      assert config == Put(old(config), a, 2);
      alive := ConfigSet(BaseOid, Text(a.baseOid));
      if !alive {
        return Died;
      }
      assert config == Put(old(config), a, 3);
      alive := ConfigSet(StartedAt, Text(a.startedAt));
      if !alive {
        return Died;
      }
      assert config == Put(old(config), a, 4);
      alive := ConfigSet(Members, Json(a.members));
      if !alive {
        return Died;
      }
      assert config == Put(old(config), a, 5);
      alive := ConfigSet(Sealed, Text("1"));
      if !alive {
        return Died;
      }
      assert config == Put(old(config), a, 6);
      return Recorded(Batch(a.id, Some(a.baseRef), Some(a.baseOid), Some(a.startedAt), a.members));
    }

    /** `reset_batch`, in a process that dies after `lifetime` writes. */
    method ResetBatch(lifetime: nat) returns (finished: bool)
      modifies this
      ensures config == Apply(old(config), Reset(lifetime))
      ensures finished == (lifetime >= 6)
    {
      writesLeft := lifetime;
      var alive := ConfigDelete(Sealed);
      if !alive {
        return false;
      }
      assert config == Drop(old(config), 1);
      for i := 1 to 6
        invariant i <= lifetime && writesLeft == lifetime - i
        invariant config == Drop(old(config), i)
      {
        alive := ConfigDelete(RESET_ORDER[i]);
        if !alive {
          return false;
        }
      }
      return true;
    }
  }

  // ---- crash atomicity over whole histories ----

  /** The start that is in force: completed, accepted, and no reset has written since. */
  ghost function Live(h: seq<Op>): Option<StartArgs> {
    if h == [] then None
    else
      var earlier := h[..|h| - 1];
      match h[|h| - 1]
      case Start(a, n) => if Accepts(Run(earlier)) && n >= 6 then Some(a) else Live(earlier)
      case Reset(n) => if n >= 1 then None else Live(earlier)
  }

  ghost function AsRead(a: StartArgs): Batch {
    Batch(Strip(a.id), Clean(a.baseRef), Clean(a.baseOid), Clean(a.startedAt), a.members)
  }

  ghost predicate NonBlankIds(h: seq<Op>) {
    forall i :: 0 <= i < |h| && h[i].Start? ==> !Blank(h[i].args.id)
  }

  function FullConfig(a: StartArgs): Config {
    map[Id := Text(a.id), BaseRef := Text(a.baseRef), BaseOid := Text(a.baseOid), StartedAt := Text(a.startedAt),
        Members := Json(a.members), Sealed := Text("1")]
  }

  lemma PutAll(config: Config, a: StartArgs)
    ensures Put(config, a, 6) == FullConfig(a)
  {
    assert Put(config, a, 1) == config[Id := Text(a.id)];
    assert Put(config, a, 2) == Put(config, a, 1)[BaseRef := Text(a.baseRef)];
    assert Put(config, a, 3) == Put(config, a, 2)[BaseOid := Text(a.baseOid)];
    assert Put(config, a, 4) == Put(config, a, 3)[StartedAt := Text(a.startedAt)];
    assert Put(config, a, 5) == Put(config, a, 4)[Members := Json(a.members)];
    forall k: Key
      ensures k in FullConfig(a) && k in Put(config, a, 6)
    {
      match k { case Id => case BaseRef => case BaseOid => case StartedAt => case Members => case Sealed => }
    }
    forall k | k in FullConfig(a)
      ensures Put(config, a, 6)[k] == FullConfig(a)[k]
    {
      match k { case Id => case BaseRef => case BaseOid => case StartedAt => case Members => case Sealed => }
    }
  }

  /** Until its last write, a start leaves the seal alone; it writes the id first. */
  lemma {:induction false} PutFrame(config: Config, a: StartArgs, n: nat)
    requires 1 <= n <= 6
    ensures Id in Put(config, a, n) && Put(config, a, n)[Id] == Text(a.id)
    ensures n < 6 ==> (Sealed in Put(config, a, n) <==> Sealed in config)
  {
    if n > 1 {
      PutFrame(config, a, n - 1);
    }
  }

  /** A reset removes the seal first, and all six keys when it completes. */
  lemma {:induction false} DropFrame(config: Config, n: nat, key: Key)
    requires n <= 6
    ensures key in Drop(config, n) <==> key in config && key !in RESET_ORDER[..n]
    ensures key in Drop(config, n) ==> Drop(config, n)[key] == config[key]
  {
    if n > 0 {
      DropFrame(config, n - 1, key);
      TakeNext(RESET_ORDER, n - 1);
    }
  }

  /**
   * Crash atomicity, for every history with non-blank ids: the config holds all six values
   * of the start in force, or no start is in force and there is no seal.
   */
  lemma {:induction false} SealedMeansComplete(h: seq<Op>)
    requires NonBlankIds(h)
    ensures Live(h).Some? ==> Run(h) == FullConfig(Live(h).value) && !Blank(Live(h).value.id)
    ensures Live(h).None? ==> Sealed !in Run(h)
  {
    if h != [] {
      var earlier, op := h[..|h| - 1], h[|h| - 1];
      assert forall i :: 0 <= i < |earlier| ==> earlier[i] == h[i];
      SealedMeansComplete(earlier);
      match op {
        case Start(a, n) =>
          if Accepts(Run(earlier)) {
            PutAll(Run(earlier), a);
            if 1 <= n {
              PutFrame(Run(earlier), a, AtMostSix(n));
            }
          }
        case Reset(n) =>
          DropFrame(Run(earlier), AtMostSix(n), Sealed);
          assert n >= 1 ==> RESET_ORDER[..AtMostSix(n)][0] == Sealed;
      }
    }
  }

  /** `read_batch` after any history returns the start in force, and nothing else. */
  lemma ReadReturnsTheLiveStart(h: seq<Op>)
    requires NonBlankIds(h)
    ensures ReadBatch(Run(h)) == match Live(h) { case Some(a) => Some(AsRead(a)) case None => None }
  {
    SealedMeansComplete(h);
  }

  /** Operation `i` is a start that was accepted and completed. */
  ghost predicate CompletedStart(h: seq<Op>, i: nat) {
    i < |h| && h[i].Start? && h[i].writes >= 6 && Accepts(Run(h[..i]))
  }

  /** The start in force is one completed start of the history, with no reset after it. */
  lemma {:induction false} LiveIsCompleted(h: seq<Op>) returns (i: nat)
    requires Live(h).Some?
    ensures CompletedStart(h, i) && h[i].args == Live(h).value
    ensures forall j :: i < j < |h| && h[j].Reset? ==> h[j].writes == 0
  {
    var last := |h| - 1;
    if h[last].Start? && Accepts(Run(h[..last])) && h[last].writes >= 6 {
      i := last;
    } else {
      i := LiveIsCompleted(h[..last]);
      assert h[..last][..i] == h[..i];
    }
  }

  /** A read is None or all five fields of one single completed start. */
  ghost predicate ReadsOneStart(h: seq<Op>) {
    ReadBatch(Run(h)).Some? ==> exists i: nat :: CompletedStart(h, i) && ReadBatch(Run(h)) == Some(AsRead(h[i].args))
  }

  lemma NoMixedReads(h: seq<Op>)
    requires NonBlankIds(h)
    ensures ReadsOneStart(h)
  {
    ReadReturnsTheLiveStart(h);
    if Live(h).Some? {
      var i := LiveIsCompleted(h);
    }
  }

  /** Conversely a completed start is what every read returns until a reset writes. */
  lemma {:induction false} CompletedStartStays(h: seq<Op>, i: nat)
    requires NonBlankIds(h) && CompletedStart(h, i)
    requires forall j :: i < j < |h| && h[j].Reset? ==> h[j].writes == 0
    ensures ReadBatch(Run(h)) == Some(AsRead(h[i].args)) && Live(h) == Some(h[i].args)
  {
    ReadReturnsTheLiveStart(h);
    if i < |h| - 1 {
      var earlier := h[..|h| - 1];
      assert earlier[..i] == h[..i];
      CompletedStartStays(earlier, i);
      SealedMeansComplete(earlier);
    }
  }

  // ---- recovery ----

  /**
   * From any config whatever, a reset that completes lets a start succeed, and a start that
   * completes on it is read back; what `record_start` returned agrees when no field has
   * surrounding blanks.
   */
  lemma ResetThenStart(config: Config, a: StartArgs, n: nat, m: nat)
    requires n >= 6 && m >= 6 && !Blank(a.id)
    ensures Accepts(Apply(config, Reset(n)))
    ensures ReadBatch(Apply(Apply(config, Reset(n)), Start(a, m))) == Some(AsRead(a))
    ensures (forall s :: s in {a.id, a.baseRef, a.baseOid, a.startedAt} ==> s != "" && Strip(s) == s) ==>
              AsRead(a) == Batch(a.id, Some(a.baseRef), Some(a.baseOid), Some(a.startedAt), a.members)
  {
    DropFrame(config, 6, Id);
    assert RESET_ORDER[1] == Id;
    PutAll(Drop(config, 6), a);
    var texts := {a.id, a.baseRef, a.baseOid, a.startedAt};
    assert a.id in texts && a.baseRef in texts && a.baseOid in texts && a.startedAt in texts;
  }

  // ---- blank ids: exactly when the record is crash-atomic ----

  ghost predicate IdsFrom(h: seq<Op>, allowed: string -> bool) {
    forall i :: 0 <= i < |h| && h[i].Start? ==> allowed(h[i].args.id)
  }

  /** Every history whose ids are allowed reads one single start, or none. */
  ghost predicate CrashAtomic(allowed: string -> bool) {
    forall h :: IdsFrom(h, allowed) ==> ReadsOneStart(h)
  }

  /**
   * The guard of `record_start` cannot see a blank id, so a second start may write over a
   * sealed record. The protocol is crash-atomic for a set of ids if and only if the set
   * does not contain both a blank and a non-blank id.
   */
  lemma CrashAtomicIffIdsNotMixed(allowed: string -> bool)
    ensures CrashAtomic(allowed) <==>
            (forall id :: allowed(id) ==> !Blank(id)) || (forall id :: allowed(id) ==> Blank(id))
  {
    if forall id :: allowed(id) ==> !Blank(id) {
      forall h | IdsFrom(h, allowed)
        ensures ReadsOneStart(h)
      {
        NoMixedReads(h);
      }
    } else if forall id :: allowed(id) ==> Blank(id) {
      forall h | IdsFrom(h, allowed)
        ensures ReadsOneStart(h)
      {
        BlankIdsReadNothing(h, allowed);
      }
    } else {
      var blank, id :| allowed(blank) && Blank(blank) && allowed(id) && !Blank(id);
      BlankIdMixes(blank, id);
      assert IdsFrom(MixingHistory(blank, id), allowed);
    }
  }

  lemma {:induction false} BlankIdsReadNothing(h: seq<Op>, allowed: string -> bool)
    requires IdsFrom(h, allowed) && forall id :: allowed(id) ==> Blank(id)
    ensures GetText(Run(h), Id).None?
  {
    if h != [] {
      var earlier, op := h[..|h| - 1], h[|h| - 1];
      assert forall i :: 0 <= i < |earlier| ==> earlier[i] == h[i];
      BlankIdsReadNothing(earlier, allowed);
      match op {
        case Start(a, n) =>
          assert allowed(h[|h| - 1].args.id);
          if n >= 1 {
            PutFrame(Run(earlier), a, AtMostSix(n));
          }
        case Reset(n) =>
          DropFrame(Run(earlier), AtMostSix(n), Id);
      }
    }
  }

  /** A completed start with a blank id, then a start that dies after its first write. */
  ghost function MixingHistory(blank: string, id: string): seq<Op> {
    [Start(StartArgs(blank, "x", "x", "x", {}), 6), Start(StartArgs(id, "y", "y", "y", {}), 1)]
  }

  lemma MixedConfig(blank: string, id: string)
    requires Blank(blank)
    ensures var h := MixingHistory(blank, id); Run(h) == FullConfig(h[0].args)[Id := Text(id)]
  {
    var h := MixingHistory(blank, id);
    assert h[..1] == [h[0]] && h[..1][..0] == [];
    PutAll(map[], h[0].args);
    assert Run(h[..1]) == FullConfig(h[0].args);
    assert Put(FullConfig(h[0].args), h[1].args, 1) == FullConfig(h[0].args)[Id := Text(id)];
  }

  /** The read mixes the new id with the fields of the old start. */
  lemma BlankIdMixes(blank: string, id: string)
    requires Blank(blank) && !Blank(id)
    ensures ReadBatch(Run(MixingHistory(blank, id))) == Some(Batch(Strip(id), Some("x"), Some("x"), Some("x"), {}))
    ensures !ReadsOneStart(MixingHistory(blank, id))
  {
    MixedConfig(blank, id);
    assert !CompletedStart(MixingHistory(blank, id), 1);
  }
}
