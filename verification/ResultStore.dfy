/** The result store: each result object is stored before the fenced entry commit, on
    a file store that never replaces an object. */
module ResultStore {
  import opened BatchTypes
  import opened Statements
  import opened System
  import BatchStore
  import Integrity
  import Ownership

  /** What another actor does on the file store: a PUT of a canonical key, of a fallback
      key it mints, or the deletion of a fallback. */
  datatype FileOp = PutBy(rid: RequestId, line: Bytes) | MintBy(rid: RequestId, line: Bytes) | DropBy(rid: RequestId, uuid: nat)

  /** Other actors at work before a call's first PUT, between a collision and its
      verification, and before its commit; and whether the object it collided with can be
      read back. */
  datatype Windows = Windows(before: seq<FileOp>, between: seq<FileOp>, after: seq<FileOp>, readable: bool)
  {
    function All(): seq<FileOp> {
      before + between + after
    }
  }

  /** A create-only object store; uuid is the next unused random infix. */
  class FileStore {
    var objects: map<ResultKey, Bytes>
    var uuid: nat

    predicate Valid()
      reads this
    {
      forall k :: k in objects && k.Fallback? ==> k.uuid < uuid
    }

    constructor ()
      ensures Valid() && objects == map[]
    {
      objects := map[];
      uuid := 0;
    }

    method Store(key: ResultKey, line: Bytes) returns (created: bool)
      modifies `objects
      ensures created <==> key !in old(objects)
      ensures objects == Put(old(objects), key, line)
    {
      created := key !in objects;
      if created {
        objects := objects[key := line];
      }
    }

    method Retrieve(key: ResultKey) returns (data: Option<Bytes>)
      ensures data == if key in objects then Some(objects[key]) else None
    {
      data := if key in objects then Some(objects[key]) else None;
    }

    method Delete(key: ResultKey)
      modifies `objects
      ensures objects == old(objects) - {key}
    {
      objects := objects - {key};
    }

    method FallbackKey(rid: RequestId) returns (key: ResultKey)
      requires Valid()
      modifies `uuid
      ensures Valid() && key.Fallback? && key.request == rid && key !in objects
      ensures uuid > old(uuid) && key.uuid == old(uuid)
    {
      key := Fallback(rid, uuid);
      uuid := uuid + 1;
    }

    /** Other actors' operations. Nobody deletes a fallback minted from floor on: such a
        key is known to the call that minted it alone. */
    method Meddle(ops: seq<FileOp>, floor: nat)
      requires Valid() && floor <= uuid
      modifies this
      ensures Valid() && uuid >= old(uuid)
      ensures Kept(old(objects), objects, ops, floor)
      ensures ops == [] ==> objects == old(objects)
    {
      for i := 0 to |ops|
        invariant Valid() && uuid >= old(uuid) && Kept(old(objects), objects, ops[..i], floor)
        invariant i == 0 ==> objects == old(objects)
      {
        assert ops[..i + 1] == ops[..i] + [ops[i]];
        match ops[i] {
          case PutBy(rid, line) =>
            var _ := Store(Canonical(rid), line);
          case MintBy(rid, line) =>
            var key := FallbackKey(rid);
            var _ := Store(key, line);
          case DropBy(rid, u) =>
            if u < floor {
              Delete(Fallback(rid, u));
            }
        }
      }
      assert ops[..|ops|] == ops;
    }
  }

  /** No object is replaced, and none is lost but fallbacks that others deleted. */
  ghost predicate Kept(before: map<ResultKey, Bytes>, after: map<ResultKey, Bytes>, ops: seq<FileOp>, floor: nat) {
    forall k :: k in before ==>
      (k in after && after[k] == before[k]) ||
      (k.Fallback? && k.uuid < floor && DropBy(k.request, k.uuid) in ops)
  }

  lemma KeptJoins(a: map<ResultKey, Bytes>, b: map<ResultKey, Bytes>, c: map<ResultKey, Bytes>, first: seq<FileOp>,
                  second: seq<FileOp>, floor: nat)
    requires Kept(a, b, first, floor) && Kept(b, c, second, floor)
    ensures Kept(a, c, first + second, floor)
  {}

  /** No object is lost or replaced. */
  ghost predicate Grows(before: map<ResultKey, Bytes>, after: map<ResultKey, Bytes>) {
    forall k :: k in before ==> k in after && after[k] == before[k]
  }

  /** Equal size and digest is equal content. */
  lemma IntactIsContent(objects: map<ResultKey, Bytes>, key: ResultKey, line: Bytes)
    ensures Intact(objects, MetaOf(key, line)) <==> key in objects && objects[key] == line
  {}

  /** The canonical key holds another line, or cannot be read back to tell. */
  predicate Taken(objects: map<ResultKey, Bytes>, rid: RequestId, line: Bytes, readable: bool) {
    Canonical(rid) in objects && !(readable && objects[Canonical(rid)] == line)
  }

  /** Each rejected line's key is free, or holds that line and can be read back. */
  ghost predicate Storable(objects: map<ResultKey, Bytes>, manifest: seq<ManifestEntry>, readable: nat -> bool) {
    forall i: nat :: i < |manifest| && manifest[i].rejected && Canonical(manifest[i].requestId) in objects ==>
      readable(i) && objects[Canonical(manifest[i].requestId)] == manifest[i].errLine
  }

  /** Only keys of the first i lines were added. */
  ghost predicate Untouched(before: map<ResultKey, Bytes>, after: map<ResultKey, Bytes>, manifest: seq<ManifestEntry>, i: nat) {
    forall k :: k in after && k !in before ==>
      exists j :: 0 <= j < i && j < |manifest| && k == Canonical(manifest[j].requestId)
  }

  ghost predicate DistinctLines(manifest: seq<ManifestEntry>) {
    forall i, j :: 0 <= i < j < |manifest| ==> manifest[i].requestId != manifest[j].requestId
  }

  lemma DistinctActivation(manifest: seq<ManifestEntry>)
    ensures DistinctRequests(ActivationEntries(manifest)) <==> DistinctLines(manifest)
    ensures |ActivationEntries(manifest)| == |manifest|
  {
    var entries := ActivationEntries(manifest);
    assert forall i :: 0 <= i < |manifest| ==> entries[i].requestId == manifest[i].requestId;
  }

  /** One more rejected line: it fails exactly if its key was taken at first and does not
      hold it readably. */
  lemma PutOneMore(first: map<ResultKey, Bytes>, before: map<ResultKey, Bytes>, after: map<ResultKey, Bytes>,
                   manifest: seq<ManifestEntry>, readable: nat -> bool, i: nat, ok: bool)
    requires i < |manifest| && manifest[i].rejected && Grows(first, before) && Untouched(first, before, manifest, i)
    requires after == Put(before, Canonical(manifest[i].requestId), manifest[i].errLine)
    requires ok <==> Intact(after, RejectedMeta(manifest[i])) && (readable(i) || Canonical(manifest[i].requestId) !in before)
    requires DistinctLines(manifest) ==> Storable(first, manifest[..i], readable)
    ensures Grows(first, after) && Grows(before, after) && Untouched(first, after, manifest, i + 1)
    ensures DistinctLines(manifest) && ok ==> Storable(first, manifest[..i + 1], readable)
    ensures DistinctLines(manifest) && !ok ==> !Storable(first, manifest, readable)
  {
    var key := Canonical(manifest[i].requestId);
    IntactIsContent(after, key, manifest[i].errLine);
    assert DistinctLines(manifest) && key in before ==> key in first;
    forall k | k in after && k !in first ensures exists j :: 0 <= j < i + 1 && j < |manifest| && k == Canonical(manifest[j].requestId) {
      if k in before {
        var j :| 0 <= j < i && j < |manifest| && k == Canonical(manifest[j].requestId);
      }
    }
  }

  function Raced(db: Db, race: seq<Stmt>): Db {
    Ownership.At(db, race, |race|)
  }

  /** A terminal entry is a duplicate at once; otherwise the fence and the entry as the
      race left them decide. */
  function CheckpointOutcome(db: Db, race: seq<Stmt>, pid: ProcessorId, epoch: nat, rid: RequestId):
    BatchStore.Outcome
  {
    if EntryTerminal(db, rid) then BatchStore.AlreadyTerminal
    else if OwnerFence(Raced(db, race), pid, epoch) && OpenEntry(Raced(db, race), rid) then BatchStore.Done
    else if Duplicate(Raced(db, race), pid, epoch, rid) then BatchStore.AlreadyTerminal
    else BatchStore.Conflict
  }

  class BatchResultStore {
    const files: FileStore
    const entries: BatchStore.ResumableStore
    const pid: ProcessorId
    const epoch: nat

    constructor (files: FileStore, entries: BatchStore.ResumableStore, pid: ProcessorId, epoch: nat)
      ensures this.files == files && this.entries == entries && this.pid == pid && this.epoch == epoch
    {
      this.files := files;
      this.entries := entries;
      this.pid := pid;
      this.epoch := epoch;
    }

    /** True exactly when the object could be read back and has that size and digest. */
    method VerifyStored(key: ResultKey, digest: Digest, size: nat, readable: bool) returns (ok: bool)
      ensures ok <==> readable && Intact(files.objects, ResultMeta(key, size, digest))
    {
      if !readable {
        return false;
      }
      var data := files.Retrieve(key);
      if data.None? || |data.value| != size {
        return false;
      }
      return Sha256(data.value) == digest;
    }

    /** Succeeds only if the rejected line's object holds its bytes afterwards, and always
        then, unless the object was there before and cannot be read back. */
    method PutRejectedObject(m: ManifestEntry, readable: bool) returns (ok: bool)
      requires files.Valid()
      modifies files`objects
      ensures files.Valid() && files.objects == Put(old(files.objects), Canonical(m.requestId), m.errLine)
      ensures ok <==> Intact(files.objects, RejectedMeta(m)) &&
                      (readable || Canonical(m.requestId) !in old(files.objects))
    {
      var meta := RejectedMeta(m);
      var created := files.Store(meta.key, m.errLine);
      if created {
        return true;
      }
      ok := VerifyStored(meta.key, meta.digest, meta.size, readable);
    }

    /** Always ends with the line intact under the returned key, whatever others store or
        delete meanwhile, and never at the expense of another object: the canonical key
        if it was free or can be read back and holds this line, otherwise a fresh one. */
    method StoreObject(rid: RequestId, line: Bytes, between: seq<FileOp>, readable: bool, floor: nat)
      returns (key: ResultKey)
      requires files.Valid() && floor <= files.uuid
      modifies files
      ensures files.Valid() && files.uuid >= old(files.uuid)
      ensures key.request == rid && key in files.objects && files.objects[key] == line
      ensures Kept(old(files.objects), files.objects, between, floor)
      ensures key.Canonical? <==>
                Canonical(rid) !in old(files.objects) || (readable && old(files.objects)[Canonical(rid)] == line)
      ensures key.Fallback? ==> key !in old(files.objects) && key.uuid >= floor
      ensures between == [] ==> files.objects.Keys == old(files.objects.Keys) + {key}
    {
      key := Canonical(rid);
      var created := files.Store(key, line);
      if created {
        return;
      }
      files.Meddle(between, floor);
      var ours := VerifyStored(key, Sha256(line), |line|, readable);
      IntactIsContent(files.objects, key, line);
      if ours {
        return;
      }
      key := files.FallbackKey(rid);
      created := files.Store(key, line);
    }

    /** Stores the line with others at work on the file store all the while. */
    method StoreAmong(rid: RequestId, line: Bytes, windows: Windows) returns (key: ResultKey)
      requires files.Valid()
      modifies files
      ensures files.Valid() && key.request == rid && key in files.objects && files.objects[key] == line
      ensures Kept(old(files.objects), files.objects, windows.All(), old(files.uuid))
      ensures key.Fallback? ==> key !in old(files.objects) && key.uuid >= old(files.uuid)
      ensures windows.All() == [] ==> files.objects.Keys == old(files.objects.Keys) + {key}
      ensures windows.before == [] ==> (key.Fallback? <==> Taken(old(files.objects), rid, line, windows.readable))
    {
      var floor := files.uuid;
      ghost var first := files.objects;
      files.Meddle(windows.before, floor);
      ghost var second := files.objects;
      key := StoreObject(rid, line, windows.between, windows.readable, floor);
      ghost var third := files.objects;
      files.Meddle(windows.after, floor);
      KeptJoins(first, second, third, windows.before, windows.between, floor);
      KeptJoins(first, third, files.objects, windows.before + windows.between, windows.after, floor);
    }

    /** The fenced commit of a stored line; a duplicate's own fallback is deleted. */
    method CommitOrClean(rid: RequestId, key: ResultKey, result: EntryResult) returns (r: BatchStore.Outcome)
      requires result.status == EntryCompleted || result.status == EntryFailed
      modifies files`objects, entries`entries
      ensures entries.Snapshot() ==
                Exec(old(entries.Snapshot()), Statements.Checkpoint(pid, epoch, rid, result))
      ensures r == (if OwnerFence(old(entries.Snapshot()), pid, epoch) && OpenEntry(old(entries.Snapshot()), rid)
                    then BatchStore.Done
                    else if Duplicate(old(entries.Snapshot()), pid, epoch, rid) then BatchStore.AlreadyTerminal
                    else BatchStore.Conflict)
      ensures r != BatchStore.Done ==> entries.Snapshot() == old(entries.Snapshot())
      ensures files.objects ==
                if r == BatchStore.AlreadyTerminal && key != Canonical(rid) then old(files.objects) - {key} else old(files.objects)
    {
      r := entries.CheckpointEntryResult(rid, pid, epoch, result);
      if r == BatchStore.AlreadyTerminal && key != Canonical(rid) {
        files.Delete(key);
      }
    }

    /** Looks the entry up, stores the line, commits, and on a lost race deletes the
        fallback it wrote. The race is whatever statements other actors run between the
        lookup and the commit, the windows whatever they do on the file store; mine is
        the fallback key this call minted, if it did. */
    method Checkpoint(rid: RequestId, line: Bytes, status: EntryStatus, code: string, race: seq<Stmt>, windows: Windows)
      returns (r: BatchStore.Outcome, ghost mine: Option<ResultKey>)
      requires files.Valid() && (status == EntryCompleted || status == EntryFailed)
      modifies files, entries
      ensures files.Valid() && Kept(old(files.objects), files.objects, windows.All(), old(files.uuid))
      ensures r == CheckpointOutcome(old(entries.Snapshot()), race, pid, epoch, rid)
      ensures EntryTerminal(old(entries.Snapshot()), rid) ==>
                entries.Snapshot() == old(entries.Snapshot()) && files.objects == old(files.objects)
      ensures !EntryTerminal(old(entries.Snapshot()), rid) && r != BatchStore.Done ==>
                entries.Snapshot() == Raced(old(entries.Snapshot()), race)
      ensures mine.Some? ==> mine.value.Fallback? && mine.value !in old(files.objects)
      ensures windows.before == [] ==>
                (mine.Some? <==> !EntryTerminal(old(entries.Snapshot()), rid) &&
                                 Taken(old(files.objects), rid, line, windows.readable))
      ensures mine.Some? ==> (mine.value in files.objects <==> r != BatchStore.AlreadyTerminal)
      ensures r == BatchStore.AlreadyTerminal && windows.All() == [] ==>
                files.objects.Keys <= old(files.objects.Keys) + {Canonical(rid)}
      ensures r == BatchStore.Done ==>
                exists key | key in files.objects && files.objects[key] == line && key.request == rid ::
                  entries.Snapshot() ==
                  Exec(Raced(old(entries.Snapshot()), race),
                       Statements.Checkpoint(pid, epoch, rid, EntryResult(status, MetaOf(key, line), code)))
    {
      mine := None;
      var i := IndexOf(entries.entries, rid);
      if i.Some? && entries.entries[i.value].Terminal() {
        r := BatchStore.AlreadyTerminal;
        return;
      }
      var key := StoreAmong(rid, line, windows);
      if key.Fallback? {
        mine := Some(key);
      }
      entries.Interleave(race);
      r := CommitOrClean(rid, key, EntryResult(status, MetaOf(key, line), code));
    }

    /** Every rejected line's object is stored before the entries that name it exist. The
        batch is activated if and only if each of those objects can be stored or verified
        and the run still holds the row unactivated; only the latter is a conflict. */
    method ActivateResumable(manifest: seq<ManifestEntry>, owner: ProcessorId, ttl: int, readable: nat -> bool)
      returns (r: BatchStore.Outcome)
      requires files.Valid()
      modifies files`objects, entries
      ensures files.Valid() && Grows(old(files.objects), files.objects)
      ensures r == BatchStore.Done ==>
                && entries.entries == ActivationEntries(manifest)
                && entries.resumable && entries.doc.status == InProgress
                && Integrity.EntriesIntact(entries.entries, files.objects)
      ensures r != BatchStore.Done ==> entries.Snapshot() == old(entries.Snapshot())
      ensures owner != "" && ttl > 0 && |manifest| > 0 && DistinctLines(manifest) ==>
                r == if !Storable(old(files.objects), manifest, readable) then BatchStore.Refused
                     else if old(entries.Activatable(owner, epoch)) then BatchStore.Done
                     else BatchStore.Conflict
      ensures owner == "" || ttl <= 0 || manifest == [] || !DistinctLines(manifest) ==> r != BatchStore.Done
    {
      var stored := PutRejectedObjects(manifest, readable);
      if !stored {
        return BatchStore.Refused;
      }
      DistinctActivation(manifest);
      r := entries.ActivateResumableBatch(owner, epoch, ttl, ActivationEntries(manifest));
    }

    /** The loop over the rejected lines; it stops at the first that fails. */
    method PutRejectedObjects(manifest: seq<ManifestEntry>, readable: nat -> bool) returns (ok: bool)
      requires files.Valid()
      modifies files`objects
      ensures files.Valid() && Grows(old(files.objects), files.objects)
      ensures ok ==> forall k :: 0 <= k < |manifest| && manifest[k].rejected ==>
                       Intact(files.objects, RejectedMeta(manifest[k]))
      ensures DistinctLines(manifest) ==> (ok <==> Storable(old(files.objects), manifest, readable))
    {
      for i := 0 to |manifest|
        invariant files.Valid() && Grows(old(files.objects), files.objects)
        invariant forall k :: 0 <= k < i && manifest[k].rejected ==> Intact(files.objects, RejectedMeta(manifest[k]))
        invariant Untouched(old(files.objects), files.objects, manifest, i)
        invariant DistinctLines(manifest) ==> Storable(old(files.objects), manifest[..i], readable)
      {
        if manifest[i].rejected {
          ghost var before := files.objects;
          var done := PutRejectedObject(manifest[i], readable(i));
          PutOneMore(old(files.objects), before, files.objects, manifest, readable, i, done);
          if !done {
            return false;
          }
        }
      }
      assert manifest[..|manifest|] == manifest;
      return true;
    }
  }

  // ---- the method and the steps of a call ----

  /** One step of call i of the system model after some run; a step that does not fit the
      call's phase changes nothing. */
  lemma StepOf(s: Sys, steps: seq<Step>, u: Sys, i: nat, a: CallStep) returns (longer: seq<Step>, t: Sys)
    requires After(s, steps) == u && i < |u.calls|
    ensures longer == steps + [OnCall(i, a)] && After(s, longer) == t && |t.calls| == |u.calls|
    ensures var c := u.calls[i];
            if CallEnabled(c, a)
            then t.calls[i] == c.(phase := PhaseAfter(u, c, a)) && t.objects == ObjectsAfter(u, c, a) &&
                 t.db == if a.Commit? then Exec(u.db, CommitStmt(c)) else u.db
            else t == u
  {
    longer, t := steps + [OnCall(i, a)], Apply(u, OnCall(i, a));
    assert longer[..|longer| - 1] == steps;
  }

  predicate In(u: Sys, i: nat, c: Call, p: Phase) {
    i < |u.calls| && u.calls[i] == c.(phase := p)
  }

  function StoreList(i: nat, readable: bool): seq<Step> {
    [OnCall(i, PutCanonical(false)), OnCall(i, Verify(readable)), OnCall(i, PutFallback(false))]
  }

  function CommitList(i: nat): seq<Step> {
    [OnCall(i, Commit(false)), OnCall(i, Disambiguate), OnCall(i, Cleanup(true))]
  }

  /** A call left to itself: every step it could need, in program order. */
  function CallList(i: nat, readable: bool): seq<Step> {
    [OnCall(i, LookUp)] + StoreList(i, readable) + CommitList(i)
  }

  lemma StoreSteps(s: Sys, steps: seq<Step>, u: Sys, i: nat, c: Call, readable: bool)
    returns (longer: seq<Step>, t: Sys, key: ResultKey)
    requires After(s, steps) == u && In(u, i, c, Storing)
    requires forall k :: k in u.objects && k.Fallback? ==> k.uuid < u.uuid
    ensures longer == steps + StoreList(i, readable) && After(s, longer) == t
    ensures t.db == u.db && In(t, i, c, Stored(key))
    ensures key in t.objects && t.objects[key] == c.line && Grows(u.objects, t.objects)
  {
    IntactIsContent(u.objects, Canonical(c.rid), c.line);
    longer, t := StepOf(s, steps, u, i, PutCanonical(false));
    longer, t := StepOf(s, longer, t, i, Verify(readable));
    var free := t;
    longer, t := StepOf(s, longer, t, i, PutFallback(false));
    key := t.calls[i].phase.key;
    assert free.calls[i].phase == FallingBack ==> key !in free.objects;
  }

  lemma CommitSteps(s: Sys, steps: seq<Step>, u: Sys, i: nat, c: Call, key: ResultKey)
    returns (longer: seq<Step>, t: Sys)
    requires After(s, steps) == u && In(u, i, c, Stored(key)) && !EntryTerminal(u.db, c.rid)
    ensures longer == steps + CommitList(i) && After(s, longer) == t
    ensures var commit := Statements.Checkpoint(c.pid, c.epoch, c.rid, EntryResult(c.status, MetaOf(key, c.line), c.errorCode));
            && t.db == Exec(u.db, commit) && t.objects == u.objects
            && In(t, i, c, if Applies(u.db, commit) then Accounted else Abandoned)
  {
    longer, t := StepOf(s, steps, u, i, Commit(false));
    longer, t := StepOf(s, longer, t, i, Disambiguate);
    longer, t := StepOf(s, longer, t, i, Cleanup(true));
  }

  lemma IdleSteps(s: Sys, steps: seq<Step>, u: Sys, i: nat, readable: bool) returns (longer: seq<Step>)
    requires After(s, steps) == u && i < |u.calls| && u.calls[i].phase == Accounted
    ensures longer == steps + StoreList(i, readable) + CommitList(i) && After(s, longer) == u
  {
    var t;
    longer, t := StepOf(s, steps, u, i, PutCanonical(false));
    longer, t := StepOf(s, longer, t, i, Verify(readable));
    longer, t := StepOf(s, longer, t, i, PutFallback(false));
    longer, t := StepOf(s, longer, t, i, Commit(false));
    longer, t := StepOf(s, longer, t, i, Disambiguate);
    longer, t := StepOf(s, longer, t, i, Cleanup(true));
  }

  /** A call's own steps change its phase and nothing else of it. */
  lemma {:induction false} CallKeepsSource(s: Sys, i: nat, steps: seq<Step>)
    requires i < |s.calls| && forall k :: 0 <= k < |steps| ==> steps[k].OnCall?
    ensures |After(s, steps).calls| == |s.calls| && After(s, steps).calls[i].source == s.calls[i].source
  {
    if |steps| > 0 {
      CallKeepsSource(s, i, steps[..|steps| - 1]);
    }
  }

  /** Without interference a call commits, drops a duplicate, or has lost the fence. */
  lemma OutcomeAlone(db: Db, pid: ProcessorId, epoch: nat, rid: RequestId)
    ensures CheckpointOutcome(db, [], pid, epoch, rid) ==
            if EntryTerminal(db, rid) then BatchStore.AlreadyTerminal
            else if OwnerFence(db, pid, epoch) && OpenEntry(db, rid) then BatchStore.Done
            else BatchStore.Conflict
  {}

  lemma OpenCall(s: Sys, i: nat, c: Call, readable: bool) returns (t: Sys, key: ResultKey)
    requires i < |s.calls| && s.calls[i] == c && c.phase == Received && !EntryTerminal(s.db, c.rid)
    requires forall k :: k in s.objects && k.Fallback? ==> k.uuid < s.uuid
    ensures t == After(s, CallList(i, readable)) && Grows(s.objects, t.objects) && key in t.objects && t.objects[key] == c.line
    ensures var commit := Statements.Checkpoint(c.pid, c.epoch, c.rid, EntryResult(c.status, MetaOf(key, c.line), c.errorCode));
            t.db == Exec(s.db, commit) && In(t, i, c, if Applies(s.db, commit) then Accounted else Abandoned)
  {
    var run: seq<Step>;
    run, t := StepOf(s, [], s, i, LookUp);
    run, t, key := StoreSteps(s, run, t, i, c, readable);
    run, t := CommitSteps(s, run, t, i, c, key);
    assert run == CallList(i, readable);
  }

  lemma DuplicateCall(s: Sys, i: nat, c: Call, readable: bool) returns (t: Sys)
    requires i < |s.calls| && s.calls[i] == c && c.phase == Received && EntryTerminal(s.db, c.rid)
    ensures t == After(s, CallList(i, readable)) && t.db == s.db && t.objects == s.objects && In(t, i, c, Accounted)
  {
    var run: seq<Step>;
    run, t := StepOf(s, [], s, i, LookUp);
    run := IdleSteps(s, run, t, i, readable);
    assert run == CallList(i, readable);
  }

  /** Left to itself, a call of the system model does what the method does: the same
      outcome, the same commit, and the line stored under the key that was committed. */
  lemma CallRefinesMethod(s: Sys, i: nat, readable: bool) returns (t: Sys, key: ResultKey)
    requires i < |s.calls| && s.calls[i].phase == Received
    requires s.calls[i].status == EntryCompleted || s.calls[i].status == EntryFailed
    requires forall k :: k in s.objects && k.Fallback? ==> k.uuid < s.uuid
    ensures t == After(s, CallList(i, readable)) && i < |t.calls| && Grows(s.objects, t.objects)
    ensures var c := s.calls[i];
            var outcome := CheckpointOutcome(s.db, [], c.pid, c.epoch, c.rid);
            && t.calls[i].phase == (if outcome == BatchStore.Conflict then Abandoned else Accounted)
            && (outcome != BatchStore.Done ==> t.db == s.db)
            && (outcome == BatchStore.Done ==>
                  && key in t.objects && t.objects[key] == c.line
                  && t.db == Exec(s.db, Statements.Checkpoint(c.pid, c.epoch, c.rid,
                                                              EntryResult(c.status, MetaOf(key, c.line), c.errorCode))))
  {
    var c := s.calls[i];
    OutcomeAlone(s.db, c.pid, c.epoch, c.rid);
    if EntryTerminal(s.db, c.rid) {
      t := DuplicateCall(s, i, c, readable);
      key := Canonical(c.rid);
    } else {
      t, key := OpenCall(s, i, c, readable);
    }
  }
}
