/** The versioned policy store with its active pointer and activation stack (redibis/behavior/store.py, ids.py). */
module PolicyStore {
  import opened Sequences
  import opened Conditions

  // ---- Identifiers ----

  predicate Alphanumeric(c: char) {
    ('a' <= c && c <= 'z') || ('A' <= c && c <= 'Z') || ('0' <= c && c <= '9')
  }

  predicate HasDotDot(s: string) { exists k | 0 <= k < |s| - 1 :: s[k] == '.' && s[k + 1] == '.' }

  /** `_validate` for values without surrounding blanks. */
  predicate ValidName(s: string, limit: nat, extra: set<char>) {
    && 0 < |s| <= limit
    && !HasDotDot(s)
    && Alphanumeric(s[0])
    && forall k | 0 < k < |s| :: Alphanumeric(s[k]) || s[k] in extra
  }

  predicate ValidId(s: string) { ValidName(s, 128, {'.', '_', '-'}) }

  predicate ValidVersion(s: string) { ValidName(s, 64, {'.', '_', '-', '+'}) }

  /** Versions whose record file would be the active-pointer file or the stack file. */
  predicate Reserved(version: string) { version == "active" || version == "activation_stack" }

  /** A version whose record has a file of its own. */
  type Version = v: string | !Reserved(v) witness "1"

  lemma ReservedIsFileNameClash(version: string)
    ensures Reserved(version) <==> version + ".json" == "active.json" || version + ".json" == "activation_stack.json"
  {
    var file, suffix := version + ".json", ".json";
    assert file[..|version|] == version;
    assert "active.json"[..6] == "active" && "activation_stack.json"[..16] == "activation_stack";
  }

  // ---- Files of one policy ----

  type Metadata = map<string, Value>

  datatype Pointer = Pointer(id: string, version: Version, sha: string)

  datatype Record = Record(id: string, sha: string, document: Option<Value>, lifecycle: Option<Metadata>)

  datatype Receipt = Receipt(simulationId: string, policyId: string, version: Version, sha: string, aggregate: Metadata)

  /** `stack` is absent until the first push creates the file. */
  datatype Dir = Dir(
    records: map<Version, Record>, active: Option<Pointer>, stack: Option<seq<Pointer>>, receipts: map<string, Receipt>)

  type Files = map<string, Dir>

  datatype StoreError =
    | InvalidName | ShaConflict | NotSaved | NoStack | NothingToRollBack | CorruptStack

  function DirOf(files: Files, id: string): Dir {
    if id in files then files[id] else Dir(map[], None, None, map[])
  }

  function StackOf(d: Dir): seq<Pointer> { d.stack.GetOr([]) }

  // ---- The operations on file contents ----

  function Save(files: Files, id: string, version: Version, r: Record): (Files, Result<(), StoreError>) {
    if !ValidId(id) then (files, Err(InvalidName))
    else if !ValidVersion(version) then (files[id := DirOf(files, id)], Err(InvalidName))
    else
      var d := DirOf(files, id);
      if version in d.records then
        (files[id := d], if d.records[version].sha != r.sha then Err(ShaConflict) else Ok(()))
      else (files[id := d.(records := d.records[version := r])], Ok(()))
  }

  function Activated(d: Dir, id: string, version: Version): Dir
    requires version in d.records
  {
    var d' := if d.active.Some? then d.(stack := Some(StackOf(d) + [d.active.value])) else d;
    d'.(active := Some(Pointer(id, version, d.records[version].sha)))
  }

  function Activate(files: Files, id: string, version: Version): (Files, Result<(), StoreError>) {
    var d := DirOf(files, id);
    if !ValidId(id) || !ValidVersion(version) then (files, Err(InvalidName))
    else if version !in d.records then (files, Err(NotSaved))
    else (files[id := Activated(d, id, version)], Ok(()))
  }

  /** The stack is popped and written before the popped pointer is examined. */
  function RolledBack(d: Dir, id: string): (Dir, Result<Pointer, StoreError>) {
    if d.stack.None? then (d, Err(NoStack))
    else if d.stack.value == [] then (d, Err(NothingToRollBack))
    else
      var n := |d.stack.value| - 1;
      var prior, popped := d.stack.value[n], d.(stack := Some(d.stack.value[..n]));
      if prior.version == "" then (popped, Err(CorruptStack))
      else if !ValidVersion(prior.version) then (popped, Err(InvalidName))
      else if prior.version !in d.records then (popped, Err(NotSaved))
      else
        var pointer := Pointer(id, prior.version, d.records[prior.version].sha);
        (popped.(active := Some(pointer)), Ok(pointer))
  }

  function Rollback(files: Files, id: string): (Files, Result<Pointer, StoreError>) {
    if !ValidId(id) then (files, Err(InvalidName))
    else if id !in files then (files, Err(NoStack))
    else var (d, r) := RolledBack(files[id], id); (files[id := d], r)
  }

  function Deactivate(files: Files, id: string): (Files, Result<(), StoreError>) {
    if !ValidId(id) then (files, Err(InvalidName))
    else if id !in files then (files, Ok(()))
    else (files[id := files[id].(active := None)], Ok(()))
  }

  function SetLifecycle(
      files: Files, id: string, version: Version, lifecycle: Metadata): (Files, Result<(), StoreError>)
  {
    var d := DirOf(files, id);
    if !ValidId(id) || !ValidVersion(version) then (files, Err(InvalidName))
    else if version !in d.records then (files, Err(NotSaved))
    else (files[id := d.(records := d.records[version := d.records[version].(lifecycle := Some(lifecycle))])], Ok(()))
  }

  predicate SafeSimulationId(s: string) { s != "" && !HasDotDot(s) && '/' !in s && '\\' !in s }

  function RecordSimulation(files: Files, id: string, version: Version, simulationId: string, aggregate: Metadata,
        sha: string)
    : (Files, Result<(), StoreError>)
  {
    var d := DirOf(files, id);
    if !ValidId(id) || !ValidVersion(version) then (files, Err(InvalidName))
    else if version !in d.records then (files, Ok(()))
    else
      var r := d.records[version];
      var kept := map k | k in aggregate && k != "columns" :: aggregate[k];
      var named := r.lifecycle.GetOr(map[])["last_simulation_id" := Str(simulationId)];
      var lifecycle := named["last_simulation_aggregate" := Dict(kept)];
      var d' := d.(records := d.records[version := r.(lifecycle := Some(lifecycle))]);
      var receipt := Receipt(simulationId, id, version, if sha != "" then sha else r.sha, kept);
      var d'' := if SafeSimulationId(simulationId) then d'.(receipts := d'.receipts[simulationId := receipt]) else d';
      (files[id := d''], Ok(()))
  }

  // ---- What every reachable store satisfies ----

  /** What is active or stacked: a saved version, with that version's hash. */
  predicate Anchored(p: Pointer, id: string, d: Dir) {
    && p.id == id && ValidVersion(p.version)
    && p.version in d.records && d.records[p.version].sha == p.sha
  }

  predicate DirInv(id: string, d: Dir) {
    && ValidId(id)
    && (d.active.Some? ==> Anchored(d.active.value, id, d))
    && (forall k | 0 <= k < |StackOf(d)| :: Anchored(StackOf(d)[k], id, d))
  }

  predicate Inv(files: Files) { forall id | id in files :: DirInv(id, files[id]) }

  /** Every saved version stays saved with the hash it had. */
  predicate HashesKept(before: Files, after: Files) {
    forall id, v | id in before && v in before[id].records ::
      id in after && v in after[id].records && after[id].records[v].sha == before[id].records[v].sha
  }

  datatype Command =
    | DoSave(id: string, version: Version, record: Record)
    | DoActivate(id: string, version: Version)
    | DoRollback(id: string)
    | DoDeactivate(id: string)
    | DoSetLifecycle(id: string, version: Version, lifecycle: Metadata)
    | DoRecordSimulation(id: string, version: Version, simulationId: string, aggregate: Metadata, sha: string)

  function Execute(files: Files, c: Command): Files {
    match c
    case DoSave(id, version, record) => Save(files, id, version, record).0
    case DoActivate(id, version) => Activate(files, id, version).0
    case DoRollback(id) => Rollback(files, id).0
    case DoDeactivate(id) => Deactivate(files, id).0
    case DoSetLifecycle(id, version, lifecycle) => SetLifecycle(files, id, version, lifecycle).0
    case DoRecordSimulation(id, version, simulationId, aggregate, sha) =>
      RecordSimulation(files, id, version, simulationId, aggregate, sha).0
  }

  function RunAll(files: Files, cs: seq<Command>): Files {
    if cs == [] then files else Execute(RunAll(files, cs[..|cs| - 1]), cs[|cs| - 1])
  }

  /** Adding a version or editing metadata keeps every pointer anchored. */
  lemma RecordsGrow(id: string, d: Dir, d': Dir)
    requires DirInv(id, d) && d'.active == d.active && d'.stack == d.stack
    requires forall v | v in d.records :: v in d'.records && d'.records[v].sha == d.records[v].sha
    ensures DirInv(id, d')
  {
    forall k | 0 <= k < |StackOf(d')| ensures Anchored(StackOf(d')[k], id, d') {
      assert Anchored(StackOf(d)[k], id, d);
    }
  }

  lemma ActivateKeeps(id: string, d: Dir, version: Version)
    requires DirInv(id, d) && ValidVersion(version) && version in d.records
    ensures DirInv(id, Activated(d, id, version))
  {
    var d' := Activated(d, id, version);
    forall k | 0 <= k < |StackOf(d')| ensures Anchored(StackOf(d')[k], id, d') {
      if k < |StackOf(d)| { assert Anchored(StackOf(d)[k], id, d); }
    }
  }

  lemma RollbackKeeps(id: string, d: Dir)
    requires DirInv(id, d)
    ensures DirInv(id, RolledBack(d, id).0)
  {
    var d' := RolledBack(d, id).0;
    forall k | 0 <= k < |StackOf(d')| ensures Anchored(StackOf(d')[k], id, d') {
      assert Anchored(StackOf(d)[k], id, d);
    }
    if StackOf(d) != [] { assert Anchored(StackOf(d)[|StackOf(d)| - 1], id, d); }
  }

  /** Only the named policy's files change, and they keep the invariant and the saved hashes. */
  predicate KeepsOne(files: Files, after: Files, id: string) {
    && (after == files || (id in after && after == files[id := after[id]] && DirInv(id, after[id])))
    && forall v | v in DirOf(files, id).records ::
         v in DirOf(after, id).records && DirOf(after, id).records[v].sha == DirOf(files, id).records[v].sha
  }

  lemma KeepsOneKeepsAll(files: Files, after: Files, id: string)
    requires Inv(files) && KeepsOne(files, after, id)
    ensures Inv(after) && HashesKept(files, after)
  {
    forall p, v | p in files && v in files[p].records
      ensures p in after && v in after[p].records && after[p].records[v].sha == files[p].records[v].sha
    {
      if p == id { assert v in DirOf(files, id).records; }
    }
  }

  lemma DirOfInv(files: Files, id: string)
    requires Inv(files) && ValidId(id)
    ensures DirInv(id, DirOf(files, id))
  {
  }

  lemma RecordsGrowKeepsOne(files: Files, id: string, d': Dir)
    requires Inv(files) && ValidId(id) && d'.active == DirOf(files, id).active && d'.stack == DirOf(files, id).stack
    requires forall v | v in DirOf(files, id).records ::
             v in d'.records && d'.records[v].sha == DirOf(files, id).records[v].sha
    ensures KeepsOne(files, files[id := d'], id)
  {
    DirOfInv(files, id);
    RecordsGrow(id, DirOf(files, id), d');
  }

  lemma RecordCommandKeeps(files: Files, c: Command)
    requires Inv(files) && (c.DoSave? || c.DoSetLifecycle? || c.DoRecordSimulation?)
    ensures KeepsOne(files, Execute(files, c), c.id)
  {
    var after := Execute(files, c);
    if after != files && ValidId(c.id) {
      assert after == files[c.id := after[c.id]];
      RecordsGrowKeepsOne(files, c.id, after[c.id]);
    }
  }

  lemma PointerCommandKeeps(files: Files, c: Command)
    requires Inv(files) && (c.DoActivate? || c.DoRollback? || c.DoDeactivate?)
    ensures KeepsOne(files, Execute(files, c), c.id)
  {
    var d := DirOf(files, c.id);
    if ValidId(c.id) {
      DirOfInv(files, c.id);
      if c.DoActivate? && ValidVersion(c.version) && c.version in d.records {
        ActivateKeeps(c.id, d, c.version);
      } else if c.DoRollback? {
        RollbackKeeps(c.id, d);
      } else if c.DoDeactivate? {
        var d' := d.(active := None);
        forall k | 0 <= k < |StackOf(d')| ensures Anchored(StackOf(d')[k], c.id, d') {
          assert Anchored(StackOf(d)[k], c.id, d);
        }
        assert DirInv(c.id, d');
      }
    }
  }

  lemma EveryCommandKeeps(files: Files, c: Command)
    requires Inv(files)
    ensures Inv(Execute(files, c)) && HashesKept(files, Execute(files, c))
  {
    if c.DoSave? || c.DoSetLifecycle? || c.DoRecordSimulation? {
      RecordCommandKeeps(files, c);
    } else {
      PointerCommandKeeps(files, c);
    }
    KeepsOneKeepsAll(files, Execute(files, c), c.id);
  }

  /** In every reachable state each active pointer and each stack entry names a saved version with its hash, and no
      saved version's hash ever changes. */
  lemma {:induction false} EveryRunKeeps(files: Files, cs: seq<Command>)
    requires Inv(files)
    ensures Inv(RunAll(files, cs)) && HashesKept(files, RunAll(files, cs))
  {
    if cs != [] {
      EveryRunKeeps(files, cs[..|cs| - 1]);
      EveryCommandKeeps(RunAll(files, cs[..|cs| - 1]), cs[|cs| - 1]);
    }
  }

  // ---- Rollback ----

  /** From a reachable state a failed rollback has not popped anything: it fails only for want of a prior activation. */
  lemma RollbackFailsCleanly(files: Files, id: string)
    requires Inv(files)
    ensures var (after, r) := Rollback(files, id);
            && (r.Err? ==> after == files)
            && (r.Ok? <==> ValidId(id) && id in files && StackOf(files[id]) != [])
            && (r.Ok? ==> r.value == StackOf(files[id])[|StackOf(files[id])| - 1] && after[id].active == Some(r.value))
  {
    if id in files {
      var d := files[id];
      assert files[id := d] == files;
      if StackOf(d) != [] { assert Anchored(StackOf(d)[|StackOf(d)| - 1], id, d); }
    }
  }

  /** Same records, pointer and stack content. */
  predicate SamePosition(a: Dir, b: Dir) {
    match a
    case Dir(records, active, _, _) => records == b.records && active == b.active && StackOf(a) == StackOf(b)
  }

  /** Rolling an activation back restores pointer and stack exactly when some version was active before it. */
  lemma ActivateThenRollback(id: string, d: Dir, version: Version)
    requires DirInv(id, d) && ValidVersion(version) && version in d.records
    ensures SamePosition(RolledBack(Activated(d, id, version), id).0, d) <==> d.active.Some?
  {
    if d.active.Some? {
      var d' := Activated(d, id, version);
      assert d'.stack.value[..|d'.stack.value| - 1] == StackOf(d);
    }
  }

  function ActivateAll(d: Dir, id: string, versions: seq<Version>): Dir
    requires forall v | v in versions :: v in d.records
    ensures ActivateAll(d, id, versions).records == d.records
  {
    if versions == [] then d
    else
      assert versions[|versions| - 1] in versions;
      Activated(ActivateAll(d, id, versions[..|versions| - 1]), id, versions[|versions| - 1])
  }

  function RollbackTimes(d: Dir, id: string, n: nat): Dir
    decreases n
  {
    if n == 0 then d else RollbackTimes(RolledBack(d, id).0, id, n - 1)
  }

  lemma RollbackRespectsPosition(id: string, a: Dir, b: Dir)
    requires SamePosition(a, b) && StackOf(a) != []
    ensures SamePosition(RolledBack(a, id).0, RolledBack(b, id).0)
  {
  }

  lemma {:induction false} RollbacksRespectPosition(id: string, a: Dir, b: Dir, n: nat)
    requires SamePosition(a, b) && n <= |StackOf(a)|
    ensures SamePosition(RollbackTimes(a, id, n), RollbackTimes(b, id, n))
    decreases n
  {
    if n > 0 {
      RollbackRespectsPosition(id, a, b);
      RollbacksRespectPosition(id, RolledBack(a, id).0, RolledBack(b, id).0, n - 1);
    }
  }

  lemma {:induction false} ActivateAllKeeps(id: string, d: Dir, versions: seq<Version>)
    requires DirInv(id, d) && d.active.Some?
    requires forall v | v in versions :: ValidVersion(v) && v in d.records
    ensures DirInv(id, ActivateAll(d, id, versions)) && ActivateAll(d, id, versions).active.Some?
    ensures |StackOf(ActivateAll(d, id, versions))| == |StackOf(d)| + |versions|
  {
    if versions != [] {
      assert versions[|versions| - 1] in versions;
      ActivateAllKeeps(id, d, versions[..|versions| - 1]);
      ActivateKeeps(id, ActivateAll(d, id, versions[..|versions| - 1]), versions[|versions| - 1]);
    }
  }

  /** The first of `k` rollbacks undoes the last activation. */
  lemma UnwindOne(id: string, before: Dir, last: Version, k: nat)
    requires DirInv(id, before) && before.active.Some? && ValidVersion(last) && last in before.records
    requires 0 < k <= |StackOf(before)| + 1
    ensures SamePosition(RollbackTimes(Activated(before, id, last), id, k), RollbackTimes(before, id, k - 1))
  {
    ActivateThenRollback(id, before, last);
    RollbacksRespectPosition(id, RolledBack(Activated(before, id, last), id).0, before, k - 1);
  }

  /** Nested activations unwind in reverse: after `n` of them and `k` rollbacks the store stands where it stood after
      `n - k`. */
  lemma {:induction false} NestedActivationsUnwind(id: string, d: Dir, versions: seq<Version>, k: nat)
    requires DirInv(id, d) && d.active.Some? && k <= |versions|
    requires forall v | v in versions :: ValidVersion(v) && v in d.records
    ensures SamePosition(RollbackTimes(ActivateAll(d, id, versions), id, k),
                         ActivateAll(d, id, versions[..|versions| - k]))
    decreases k
  {
    if k == 0 {
      assert versions[..|versions|] == versions;
    } else {
      var n := |versions| - 1;
      UnwindLast(id, d, versions, k);
      assert versions[..n][..n - (k - 1)] == versions[..|versions| - k];
      NestedActivationsUnwind(id, d, versions[..n], k - 1);
    }
  }

  lemma UnwindLast(id: string, d: Dir, versions: seq<Version>, k: nat)
    requires DirInv(id, d) && d.active.Some? && 0 < k <= |versions|
    requires forall v | v in versions :: ValidVersion(v) && v in d.records
    ensures SamePosition(RollbackTimes(ActivateAll(d, id, versions), id, k),
                         RollbackTimes(ActivateAll(d, id, versions[..|versions| - 1]), id, k - 1))
  {
    var n := |versions| - 1;
    assert versions[n] in versions;
    ActivateAllKeeps(id, d, versions[..n]);
    UnwindOne(id, ActivateAll(d, id, versions[..n]), versions[n], k);
  }

  // ---- What each operation promises, read off the files before and after ----

  /** The record of a saved version. */
  ghost predicate IsSaved(files: Files, id: string, version: Version, r: Record) {
    id in files && version in files[id].records && files[id].records[version] == r
  }

  /** No other policy's files change. */
  ghost predicate OthersStay(files: Files, after: Files, id: string) {
    forall other | other != id ::
      (other in after <==> other in files) && (other in files ==> after[other] == files[other])
  }

  /** The stack as a list; a policy without files has none. */
  ghost function StackIn(files: Files, id: string): seq<Pointer> {
    if id in files && files[id].stack.Some? then files[id].stack.value else []
  }

  ghost function ActiveIn(files: Files, id: string): Option<Pointer> { if id in files then files[id].active else None }

  ghost function RecordsIn(files: Files, id: string): map<Version, Record> {
    if id in files then files[id].records else map[]
  }

  ghost function ReceiptsIn(files: Files, id: string): map<string, Receipt> {
    if id in files then files[id].receipts else map[]
  }

  /** Only records may change. */
  ghost predicate PointersStay(files: Files, after: Files, id: string) {
    ActiveIn(after, id) == ActiveIn(files, id) && StackIn(after, id) == StackIn(files, id)
  }

  /** Saving answers Ok iff the names are valid and the version is new or has that hash already; it is then there, with
      the record given if it is new, and nothing else changes. */
  ghost predicate Saved(files: Files, after: Files, id: string, version: Version, r: Record, ok: bool) {
    && (ok <==>
          && ValidId(id) && ValidVersion(version)
          && (version in RecordsIn(files, id) ==> RecordsIn(files, id)[version].sha == r.sha))
    && RecordsIn(after, id) == (if ok && version !in RecordsIn(files, id) then RecordsIn(files, id)[version := r]
                                else RecordsIn(files, id))
    && PointersStay(files, after, id) && ReceiptsIn(after, id) == ReceiptsIn(files, id) && OthersStay(files, after, id)
  }

  /** Activating answers Ok iff the names are valid and the version is saved; the version is then the active one, with
      its saved hash, the pointer before it, if any, is on the stack, and nothing else changes. */
  ghost predicate MadeActive(files: Files, after: Files, id: string, version: Version, ok: bool) {
    && (ok <==> ValidId(id) && ValidVersion(version) && version in RecordsIn(files, id))
    && (if ok then
          && ActiveIn(after, id) == Some(Pointer(id, version, RecordsIn(files, id)[version].sha))
          && StackIn(after, id) == StackIn(files, id) +
                                   (if ActiveIn(files, id).Some? then [ActiveIn(files, id).value] else [])
        else after == files)
    && RecordsIn(after, id) == RecordsIn(files, id) && ReceiptsIn(after, id) == ReceiptsIn(files, id)
    && OthersStay(files, after, id)
  }

  /** In a reachable store rolling back answers Ok iff the stack is not empty; its last pointer is then off the stack
      and active, and nothing else changes. */
  ghost predicate RestoredPrevious(files: Files, after: Files, id: string, r: Result<Pointer, StoreError>) {
    && (r.Ok? <==> StackIn(files, id) != [])
    && (if r.Ok? then
          && StackIn(after, id) + [r.value] == StackIn(files, id) && ActiveIn(after, id) == Some(r.value)
          && r.value.id == id && r.value.version in RecordsIn(files, id)
          && r.value.sha == RecordsIn(files, id)[r.value.version].sha
        else after == files)
    && RecordsIn(after, id) == RecordsIn(files, id) && ReceiptsIn(after, id) == ReceiptsIn(files, id)
    && OthersStay(files, after, id)
  }

  /** Deactivating takes the active pointer away and nothing else. */
  ghost predicate MadeInactive(files: Files, after: Files, id: string, ok: bool) {
    && (ok <==> ValidId(id)) && (ok ==> ActiveIn(after, id) == None) && (!ok ==> after == files)
    && StackIn(after, id) == StackIn(files, id)
    && RecordsIn(after, id) == RecordsIn(files, id) && ReceiptsIn(after, id) == ReceiptsIn(files, id)
    && OthersStay(files, after, id)
  }

  /** Only the lifecycle of this one record may change. */
  ghost predicate RecordKept(files: Files, after: Files, id: string, version: Version) {
    && RecordsIn(after, id).Keys == RecordsIn(files, id).Keys
    && (forall v | v in RecordsIn(files, id) && v in RecordsIn(after, id) && v != version ::
          RecordsIn(after, id)[v] == RecordsIn(files, id)[v])
    && (version in RecordsIn(files, id) ==>
          var (a, b) := (RecordsIn(files, id)[version], RecordsIn(after, id)[version]);
          a.id == b.id && a.sha == b.sha && a.document == b.document)
    && PointersStay(files, after, id) && OthersStay(files, after, id)
  }

  /** Setting a lifecycle answers Ok iff the names are valid and the version is saved; its record then has it. */
  ghost predicate LifecycleSet(
      files: Files, after: Files, id: string, version: Version, lifecycle: Metadata, ok: bool)
  {
    && (ok <==> ValidId(id) && ValidVersion(version) && version in RecordsIn(files, id))
    && RecordKept(files, after, id, version) && ReceiptsIn(after, id) == ReceiptsIn(files, id)
    && (if ok then RecordsIn(after, id)[version].lifecycle == Some(lifecycle) else after == files)
  }

  /** A metadata field of a record, if there is one. */
  ghost function Noted(r: Record, key: string): Option<Value> {
    if r.lifecycle.Some? && key in r.lifecycle.value then Some(r.lifecycle.value[key]) else None
  }

  /** Of an aggregate everything is kept but `columns`. */
  ghost predicate WithoutColumns(kept: Metadata, aggregate: Metadata) {
    forall k :: (k in kept <==> k in aggregate && k != "columns") && (k in kept ==> kept[k] == aggregate[k])
  }

  /** Recording a simulation of a saved version notes its id and aggregate in that version's lifecycle, beside what was
      there, and leaves a receipt under a safe id; of a version not saved it notes nothing. */
  ghost predicate SimulationNoted(files: Files, after: Files, id: string, version: Version, simulationId: string,
        aggregate: Metadata, sha: string, ok: bool)
  {
    && (ok <==> ValidId(id) && ValidVersion(version))
    && RecordKept(files, after, id, version)
    && (if ok && version in RecordsIn(files, id) then
          var (a, b) := (RecordsIn(files, id)[version], RecordsIn(after, id)[version]);
          && Noted(b, "last_simulation_id") == Some(Str(simulationId))
          && (forall k | k != "last_simulation_id" && k != "last_simulation_aggregate" :: Noted(b, k) == Noted(a, k))
          && exists kept :: WithoutColumns(kept, aggregate)
               && Noted(b, "last_simulation_aggregate") == Some(Dict(kept))
               && ReceiptsIn(after, id) ==
                  (if simulationId != "" && !HasDotDot(simulationId) && '/' !in simulationId && '\\' !in simulationId
                   then ReceiptsIn(files, id)[simulationId :=
                          Receipt(simulationId, id, version, if sha == "" then a.sha else sha, kept)]
                   else ReceiptsIn(files, id))
        else after == files)
  }

  lemma SavePromises(files: Files, id: string, version: Version, r: Record)
    ensures Saved(files, Save(files, id, version, r).0, id, version, r, Save(files, id, version, r).1.Ok?)
  {
  }

  lemma ActivatePromises(files: Files, id: string, version: Version)
    ensures MadeActive(files, Activate(files, id, version).0, id, version, Activate(files, id, version).1.Ok?)
  {
    assert forall s: seq<Pointer> :: s + [] == s;
  }

  lemma RollbackPromises(files: Files, id: string)
    requires Inv(files)
    ensures RestoredPrevious(files, Rollback(files, id).0, id, Rollback(files, id).1)
  {
    RollbackFailsCleanly(files, id);
    if id in files && StackOf(files[id]) != [] {
      assert DirInv(id, files[id]);
      assert Anchored(StackOf(files[id])[|StackOf(files[id])| - 1], id, files[id]);
    }
  }

  lemma DeactivatePromises(files: Files, id: string)
    ensures MadeInactive(files, Deactivate(files, id).0, id, Deactivate(files, id).1.Ok?)
  {
  }

  lemma SetLifecyclePromises(files: Files, id: string, version: Version, lifecycle: Metadata)
    ensures var (after, r) := SetLifecycle(files, id, version, lifecycle);
            LifecycleSet(files, after, id, version, lifecycle, r.Ok?)
  {
  }

  lemma RecordSimulationPromises(
      files: Files, id: string, version: Version, simulationId: string, aggregate: Metadata, sha: string)
    ensures var (after, r) := RecordSimulation(files, id, version, simulationId, aggregate, sha);
            SimulationNoted(files, after, id, version, simulationId, aggregate, sha, r.Ok?)
  {
    var (after, r) := RecordSimulation(files, id, version, simulationId, aggregate, sha);
    if r.Ok? && version in RecordsIn(files, id) {
      NotedFields(files, id, version, simulationId, aggregate, sha);
      ReceiptLeft(files, id, version, simulationId, aggregate, sha);
      var kept := map k | k in aggregate && k != "columns" :: aggregate[k];
      assert WithoutColumns(kept, aggregate);
    }
  }

  lemma NotedFields(
      files: Files, id: string, version: Version, simulationId: string, aggregate: Metadata, sha: string)
    requires ValidId(id) && ValidVersion(version) && version in RecordsIn(files, id)
    ensures var after := RecordSimulation(files, id, version, simulationId, aggregate, sha).0;
            && RecordKept(files, after, id, version)
            && Noted(RecordsIn(after, id)[version], "last_simulation_id") == Some(Str(simulationId))
            && Noted(RecordsIn(after, id)[version], "last_simulation_aggregate") ==
               Some(Dict(map k | k in aggregate && k != "columns" :: aggregate[k]))
            && forall k | k != "last_simulation_id" && k != "last_simulation_aggregate" ::
                 Noted(RecordsIn(after, id)[version], k) == Noted(RecordsIn(files, id)[version], k)
  {
  }

  lemma ReceiptLeft(
      files: Files, id: string, version: Version, simulationId: string, aggregate: Metadata, sha: string)
    requires ValidId(id) && ValidVersion(version) && version in RecordsIn(files, id)
    ensures var kept := map k | k in aggregate && k != "columns" :: aggregate[k];
            ReceiptsIn(RecordSimulation(files, id, version, simulationId, aggregate, sha).0, id) ==
            (if simulationId != "" && !HasDotDot(simulationId) && '/' !in simulationId && '\\' !in simulationId
             then ReceiptsIn(files, id)[simulationId :=
                    Receipt(simulationId, id, version,
                            if sha == "" then RecordsIn(files, id)[version].sha else sha, kept)]
             else ReceiptsIn(files, id))
  {
  }

  // ---- Names ----

  /** A valid name stays inside its directory: it is not empty, starts with a letter or digit, and holds no separator
      and no `..`. */
  lemma ValidNamesStayInside(s: string)
    requires ValidId(s) || ValidVersion(s)
    ensures 0 < |s| <= 128 && Alphanumeric(s[0]) && '/' !in s && '\\' !in s
    ensures forall k | 0 <= k < |s| - 1 :: !(s[k] == '.' && s[k + 1] == '.')
  {
  }

  /** Letters, digits and single dots, underscores and hyphens in between are all it takes. */
  lemma OrdinaryNamesAreValid(s: string)
    requires 0 < |s| && Alphanumeric(s[0])
    requires forall k | 0 < k < |s| ::
               Alphanumeric(s[k]) || s[k] == '_' || s[k] == '-' || (s[k] == '.' && s[k - 1] != '.')
    ensures |s| <= 128 ==> ValidId(s)
    ensures |s| <= 64 ==> ValidVersion(s)
  {
    forall k | 0 <= k < |s| - 1 ensures !(s[k] == '.' && s[k + 1] == '.') {
      assert Alphanumeric(s[k + 1]) || s[k + 1] == '_' || s[k + 1] == '-' || s[k] != '.';
    }
  }

  // ---- The store object ----

  class BehaviorPolicyStore {
    var files: Files

    ghost predicate Valid() reads this { Inv(files) }

    constructor ()
      ensures Valid() && files == map[]
    {
      files := map[];
    }

    method SavePolicy(id: string, version: Version, r: Record) returns (outcome: Result<(), StoreError>)
      requires Valid()
      modifies this
      ensures Valid() && HashesKept(old(files), files)
      ensures (files, outcome) == Save(old(files), id, version, r)
      ensures Saved(old(files), files, id, version, r, outcome.Ok?)
    {
      SavePromises(files, id, version, r);
      EveryCommandKeeps(files, DoSave(id, version, r));
      if !ValidId(id) { return Err(InvalidName); }
      if id !in files { files := files[id := Dir(map[], None, None, map[])]; }
      assert files == old(files)[id := DirOf(old(files), id)];
      if !ValidVersion(version) { return Err(InvalidName); }
      if version in files[id].records {
        if files[id].records[version].sha != r.sha { return Err(ShaConflict); }
        return Ok(());
      }
      files := files[id := files[id].(records := files[id].records[version := r])];
      assert files == old(files)[id := files[id]];
      outcome := Ok(());
    }

    method ActivateVersion(id: string, version: Version) returns (outcome: Result<(), StoreError>)
      requires Valid()
      modifies this
      ensures Valid() && HashesKept(old(files), files)
      ensures (files, outcome) == Activate(old(files), id, version)
      ensures MadeActive(old(files), files, id, version, outcome.Ok?)
    {
      ActivatePromises(files, id, version);
      EveryCommandKeeps(files, DoActivate(id, version));
      if !ValidId(id) || !ValidVersion(version) { return Err(InvalidName); }
      if id !in files || version !in files[id].records { return Err(NotSaved); }
      var d := files[id];
      var pointer := Pointer(id, version, d.records[version].sha);
      if d.active.Some? {
        var stack := if d.stack.Some? then d.stack.value else [];
        stack := stack + [d.active.value];
        files := files[id := files[id].(stack := Some(stack))];
      }
      files := files[id := files[id].(active := Some(pointer))];
      assert files == old(files)[id := Activated(d, id, version)];
      outcome := Ok(());
    }

    method RollbackToPrevious(id: string) returns (outcome: Result<Pointer, StoreError>)
      requires Valid()
      modifies this
      ensures Valid() && HashesKept(old(files), files)
      ensures (files, outcome) == Rollback(old(files), id)
      ensures outcome.Err? ==> files == old(files)
      ensures RestoredPrevious(old(files), files, id, outcome)
    {
      RollbackPromises(files, id);
      EveryCommandKeeps(files, DoRollback(id));
      RollbackFailsCleanly(files, id);
      if !ValidId(id) { return Err(InvalidName); }
      if id !in files { return Err(NoStack); }
      assert files[id := files[id]] == files;
      if files[id].stack.None? { return Err(NoStack); }
      var stack := files[id].stack.value;
      if stack == [] { return Err(NothingToRollBack); }
      var prior := stack[|stack| - 1];
      files := files[id := files[id].(stack := Some(stack[..|stack| - 1]))];
      if prior.version == "" { return Err(CorruptStack); }
      if !ValidVersion(prior.version) { return Err(InvalidName); }
      if prior.version !in files[id].records { return Err(NotSaved); }
      var pointer := Pointer(id, prior.version, files[id].records[prior.version].sha);
      files := files[id := files[id].(active := Some(pointer))];
      assert files == old(files)[id := files[id]];
      outcome := Ok(pointer);
    }

    method DeactivatePolicy(id: string) returns (outcome: Result<(), StoreError>)
      requires Valid()
      modifies this
      ensures Valid() && HashesKept(old(files), files)
      ensures (files, outcome) == Deactivate(old(files), id)
      ensures MadeInactive(old(files), files, id, outcome.Ok?)
    {
      DeactivatePromises(files, id);
      EveryCommandKeeps(files, DoDeactivate(id));
      if !ValidId(id) { return Err(InvalidName); }
      if id in files { files := files[id := files[id].(active := None)]; }
      outcome := Ok(());
    }

    method SetLifecycleOf(id: string, version: Version, lifecycle: Metadata) returns (outcome: Result<(), StoreError>)
      requires Valid()
      modifies this
      ensures Valid() && HashesKept(old(files), files)
      ensures (files, outcome) == SetLifecycle(old(files), id, version, lifecycle)
      ensures LifecycleSet(old(files), files, id, version, lifecycle, outcome.Ok?)
    {
      SetLifecyclePromises(files, id, version, lifecycle);
      EveryCommandKeeps(files, DoSetLifecycle(id, version, lifecycle));
      if !ValidId(id) || !ValidVersion(version) { return Err(InvalidName); }
      if id !in files || version !in files[id].records { return Err(NotSaved); }
      var r := files[id].records[version].(lifecycle := Some(lifecycle));
      files := files[id := files[id].(records := files[id].records[version := r])];
      outcome := Ok(());
    }

    method RecordSimulationOf(id: string, version: Version, simulationId: string, aggregate: Metadata, sha: string)
      returns (outcome: Result<(), StoreError>)
      requires Valid()
      modifies this
      ensures Valid() && HashesKept(old(files), files)
      ensures (files, outcome) == RecordSimulation(old(files), id, version, simulationId, aggregate, sha)
      ensures SimulationNoted(old(files), files, id, version, simulationId, aggregate, sha, outcome.Ok?)
    {
      RecordSimulationPromises(files, id, version, simulationId, aggregate, sha);
      EveryCommandKeeps(files, DoRecordSimulation(id, version, simulationId, aggregate, sha));
      if !ValidId(id) || !ValidVersion(version) { return Err(InvalidName); }
      if id !in files || version !in files[id].records { return Ok(()); }
      var r := files[id].records[version];
      var kept := map k | k in aggregate && k != "columns" :: aggregate[k];
      var lifecycle := if r.lifecycle.Some? then r.lifecycle.value else map[];
      lifecycle := lifecycle["last_simulation_id" := Str(simulationId)];
      lifecycle := lifecycle["last_simulation_aggregate" := Dict(kept)];
      var d := files[id].(records := files[id].records[version := r.(lifecycle := Some(lifecycle))]);
      if SafeSimulationId(simulationId) {
        var receipt := Receipt(simulationId, id, version, if sha != "" then sha else r.sha, kept);
        d := d.(receipts := d.receipts[simulationId := receipt]);
      }
      files := files[id := d];
      outcome := Ok(());
    }

    /** The active version's record; it exists and has the hash of the active pointer whenever there is one. */
    method GetActive(id: string) returns (r: Result<Option<Record>, StoreError>)
      requires Valid()
      ensures r.Err? <==> !ValidId(id)
      ensures r.Ok? ==> (r.value.Some? <==> ActiveIn(files, id).Some?)
      ensures r.Ok? && r.value.Some? ==>
                IsSaved(files, id, ActiveIn(files, id).value.version, r.value.value) &&
                r.value.value.sha == ActiveIn(files, id).value.sha
    {
      if !ValidId(id) { return Err(InvalidName); }
      if id !in files || files[id].active.None? { return Ok(None); }
      var pointer := files[id].active.value;
      r := Ok(if pointer.version in files[id].records then Some(files[id].records[pointer.version]) else None);
    }
  }
}
