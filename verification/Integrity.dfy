/** Store before commit: until a finalization has reported success, every terminal
    entry names an existing object with the recorded size and digest, despite racing
    owners, retried PUTs, fallback keys and fallback deletion. */
module Integrity {
  import opened BatchTypes
  import opened Statements
  import opened System
  import Delivery

  /** The key a call has stored its line under and not yet let go of. */
  function HeldKey(c: Call): Option<ResultKey> {
    if c.phase.Stored? || c.phase.Disputed? || c.phase.Superseded? then Some(c.phase.key) else None
  }

  predicate HeldKeyOk(c: Call, uuid: nat) {
    && (HeldKey(c).Some? ==> HeldKey(c).value.request == c.rid)
    && (HeldKey(c).Some? && HeldKey(c).value.Fallback? ==> HeldKey(c).value.uuid < uuid)
    && (c.phase.Superseded? ==> c.phase.key.Fallback?)
  }

  predicate Records(e: Entry, key: ResultKey) {
    e.result.Some? && e.result.value.key == key
  }

  /** A fallback key belongs to the one call that minted it, and no entry names
      it while that call still holds it. */
  ghost predicate KeysInv(entries: seq<Entry>, objects: map<ResultKey, Bytes>, uuid: nat, calls: seq<Call>) {
    && (forall c :: 0 <= c < |calls| ==> HeldKeyOk(calls[c], uuid))
    && (forall c, d :: 0 <= c < d < |calls| && HeldKey(calls[c]).Some? && HeldKey(calls[c]).value.Fallback? ==>
                         HeldKey(calls[c]) != HeldKey(calls[d]))
    && (forall e, c :: 0 <= e < |entries| && 0 <= c < |calls| && HeldKey(calls[c]).Some? && HeldKey(calls[c]).value.Fallback? ==>
                         !Records(entries[e], HeldKey(calls[c]).value))
    && (forall e :: 0 <= e < |entries| && entries[e].result.Some? && entries[e].result.value.key.Fallback? ==>
                      entries[e].result.value.key.uuid < uuid)
    && (forall k :: k in objects && k.Fallback? ==> k.uuid < uuid)
  }

  ghost predicate EntriesIntact(entries: seq<Entry>, objects: map<ResultKey, Bytes>) {
    forall e :: 0 <= e < |entries| && entries[e].Terminal() ==>
                  entries[e].result.Some? && Intact(objects, entries[e].result.value)
  }

  ghost predicate CallsIntact(calls: seq<Call>, objects: map<ResultKey, Bytes>) {
    forall c :: 0 <= c < |calls| && calls[c].phase.Stored? ==>
                  Intact(objects, MetaOf(calls[c].phase.key, calls[c].line))
  }

  predicate PutIntact(manifest: seq<ManifestEntry>, objects: map<ResultKey, Bytes>, x: nat) {
    x < |manifest| && Intact(objects, RejectedMeta(manifest[x]))
  }

  ghost predicate RunPutsIntact(manifest: seq<ManifestEntry>, run: JobRun, objects: map<ResultKey, Bytes>) {
    forall x: nat :: x in run.puts ==> PutIntact(manifest, objects, x)
  }

  ghost predicate PutsIntact(manifest: seq<ManifestEntry>, runs: seq<JobRun>, objects: map<ResultKey, Bytes>) {
    forall r :: 0 <= r < |runs| ==> RunPutsIntact(manifest, runs[r], objects)
  }

  ghost predicate StoreInv(s: Sys) {
    && KeysInv(s.db.entries, s.objects, s.uuid, s.calls)
    && (!s.finalized ==>
          EntriesIntact(s.db.entries, s.objects) && CallsIntact(s.calls, s.objects) &&
          PutsIntact(s.manifest, s.runs, s.objects))
  }

  // ---- statements ----

  /** Statements other than commits and activations leave results alone. */
  predicate SameResults(a: seq<Entry>, b: seq<Entry>) {
    |a| == |b| && forall i :: 0 <= i < |a| ==> a[i].result == b[i].result && a[i].Terminal() == b[i].Terminal()
  }

  lemma ResultsFrame(db: Db, stmt: Stmt)
    requires !stmt.Checkpoint? && !stmt.Activate?
    ensures SameResults(db.entries, Exec(db, stmt).entries)
  {}

  lemma SameResultsKeeps(s: Sys, t: Sys)
    requires StoreInv(s) && SameResults(s.db.entries, t.db.entries)
    requires t.objects == s.objects && t.uuid == s.uuid && t.calls == s.calls && t.manifest == s.manifest
    requires t.runs == s.runs && (t.finalized || !s.finalized)
    ensures StoreInv(t)
  {}

  // ---- the file store ----

  lemma PutKeepsIntact(objects: map<ResultKey, Bytes>, key: ResultKey, line: Bytes)
    ensures forall m :: Intact(objects, m) ==> Intact(Put(objects, key, line), m)
    ensures key !in objects ==> Intact(Put(objects, key, line), MetaOf(key, line))
  {}

  lemma PutKeepsPuts(s: Sys, key: ResultKey, line: Bytes)
    requires PutsIntact(s.manifest, s.runs, s.objects)
    ensures PutsIntact(s.manifest, s.runs, Put(s.objects, key, line))
  {
    PutKeepsIntact(s.objects, key, line);
    forall r | 0 <= r < |s.runs|
      ensures RunPutsIntact(s.manifest, s.runs[r], Put(s.objects, key, line))
    {
      assert RunPutsIntact(s.manifest, s.runs[r], s.objects);
    }
  }

  // ---- calls ----

  /** The database after a call's step. */
  function DbAfter(s: Sys, c: Call, a: CallStep): Db
    requires CallEnabled(c, a)
  {
    if a.Commit? then Exec(s.db, CommitStmt(c)) else s.db
  }

  /** A key a call newly holds after a step is its canonical key or a fresh one. */
  lemma NewlyHeld(s: Sys, c: Call, a: CallStep)
    requires CallEnabled(c, a) && HeldKeyOk(c, s.uuid)
    ensures var n := c.(phase := PhaseAfter(s, c, a));
            && HeldKeyOk(n, if a.PutFallback? then s.uuid + 1 else s.uuid)
            && (HeldKey(n).Some? && HeldKey(n).value.Fallback? ==>
                  HeldKey(n) == HeldKey(c) || (a.PutFallback? && HeldKey(n).value.uuid == s.uuid))
  {}

  /** A commit that applied lets go of its key, reported or not. */
  lemma CommitReleases(s: Sys, c: Call, a: CallStep)
    requires CallEnabled(c, a) && a.Commit? && Applies(s.db, CommitStmt(c))
    ensures HeldKey(c.(phase := PhaseAfter(s, c, a))) == None
  {}

  predicate SameResult(a: Entry, b: Entry) {
    a.result == b.result && a.Terminal() == b.Terminal()
  }

  /** A call's step changes no entry's result, except that an applied commit
      records the call's own key. */
  predicate Recorded(s: Sys, c: Call, a: CallStep, n: seq<Entry>)
    requires CallEnabled(c, a)
  {
    && |n| == |s.db.entries|
    && forall e :: 0 <= e < |n| ==>
         SameResult(n[e], s.db.entries[e]) ||
         (a.Commit? && Applies(s.db, CommitStmt(c)) && n[e].result == Some(MetaOf(c.phase.key, c.line)))
  }

  lemma CommitRecords(s: Sys, c: Call, a: CallStep)
    requires CallEnabled(c, a)
    ensures Recorded(s, c, a, DbAfter(s, c, a).entries)
  {}

  lemma CallKeepsKeys(s: Sys, i: nat, a: CallStep, n: seq<Entry>)
    requires i < |s.calls| && CallEnabled(s.calls[i], a)
    requires KeysInv(s.db.entries, s.objects, s.uuid, s.calls)
    requires Recorded(s, s.calls[i], a, n)
    ensures var t := CallLocal(s, i, a);
            KeysInv(n, t.objects, t.uuid, t.calls)
  {
    var c := s.calls[i];
    NewlyHeld(s, c, a);
    if a.Commit? && Applies(s.db, CommitStmt(c)) {
      CommitReleases(s, c, a);
    }
  }

  /** Deleting a superseded fallback deletes nothing anyone refers to. */
  lemma CleanupKeepsIntact(s: Sys, i: nat)
    requires i < |s.calls| && s.calls[i].phase.Superseded? && StoreInv(s) && !s.finalized
    ensures var objects := s.objects - {s.calls[i].phase.key};
            && EntriesIntact(s.db.entries, objects)
            && CallsIntact(s.calls, objects)
            && PutsIntact(s.manifest, s.runs, objects)
  {
    var key := s.calls[i].phase.key;
    forall c | 0 <= c < |s.calls| && s.calls[c].phase.Stored?
      ensures s.calls[c].phase.key != key
    {
      assert HeldKey(s.calls[c]) != HeldKey(s.calls[i]);
    }
    forall e | 0 <= e < |s.db.entries| && s.db.entries[e].Terminal()
      ensures !Records(s.db.entries[e], key)
    {
      assert HeldKey(s.calls[i]).Some?;
    }
  }

  /** A call that comes to hold a stored line holds it intact. */
  lemma StoredIntact(s: Sys, c: Call, a: CallStep)
    requires CallEnabled(c, a) && PhaseAfter(s, c, a).Stored?
    requires forall k :: k in s.objects && k.Fallback? ==> k.uuid < s.uuid
    ensures Intact(ObjectsAfter(s, c, a), MetaOf(PhaseAfter(s, c, a).key, c.line))
  {}

  lemma CallKeepsIntact(s: Sys, i: nat, a: CallStep, n: seq<Entry>)
    requires i < |s.calls| && CallEnabled(s.calls[i], a)
    requires StoreInv(s) && !s.finalized && Recorded(s, s.calls[i], a, n)
    ensures var t := CallLocal(s, i, a);
            && EntriesIntact(n, t.objects)
            && CallsIntact(t.calls, t.objects)
            && PutsIntact(t.manifest, t.runs, t.objects)
  {
    var c := s.calls[i];
    if PhaseAfter(s, c, a).Stored? {
      StoredIntact(s, c, a);
    }
    if a.Cleanup? {
      CleanupKeepsIntact(s, i);
    } else {
      PutKeepsIntact(s.objects, Canonical(c.rid), c.line);
      PutKeepsIntact(s.objects, Fallback(c.rid, s.uuid), c.line);
      PutKeepsPuts(s, Canonical(c.rid), c.line);
      PutKeepsPuts(s, Fallback(c.rid, s.uuid), c.line);
    }
  }

  // ---- job runs ----

  lemma JobKeeps(s: Sys, j: JobStep)
    requires JobEnabled(s, j) && StoreInv(s)
    ensures StoreInv(JobLocal(s, j))
  {
    if j.PutRejected? {
      var m := s.manifest[j.line];
      PutKeepsIntact(s.objects, Canonical(m.requestId), m.errLine);
      if !s.finalized {
        PutKeepsPuts(s, Canonical(m.requestId), m.errLine);
      }
    }
  }

  /** Activation seeds terminal entries only from lines whose objects are stored. */
  lemma ActivationKeeps(s: Sys, i: nat, n: Db)
    requires StoreInv(s) && i < |s.runs| && AllRejectedStored(s.manifest, s.runs[i].puts)
    requires n.entries == s.db.entries ||
             (s.db.entries == [] && |n.entries| == |s.manifest| &&
              forall x :: 0 <= x < |n.entries| ==> n.entries[x] == ActivationEntry(s.manifest[x]))
    ensures StoreInv(s.(db := n))
  {
  }

  lemma ActivateSeeds(s: Sys, pid: ProcessorId, epoch: nat, ttl: int)
    ensures var n := Exec(s.db, Activate(pid, epoch, ttl, ActivationEntries(s.manifest)));
            n.entries == s.db.entries ||
            (s.db.entries == [] && |n.entries| == |s.manifest| &&
             forall x :: 0 <= x < |n.entries| ==> n.entries[x] == ActivationEntry(s.manifest[x]))
  {}

  // ---- steps ----

  lemma JobStepKeeps(s: Sys, j: JobStep)
    requires JobEnabled(s, j) && StoreInv(s)
    ensures StoreInv(JobLocal(s, j).(db := Exec(s.db, JobStmt(s, j))))
  {
    JobKeeps(s, j);
    Delivery.JobFrame(s, j);
    var t := JobLocal(s, j);
    if j.Activates? {
      var item := s.runs[j.run].item.value;
      ActivateSeeds(s, item.processor.value, item.epoch, j.ttl);
      ActivationKeeps(t, j.run, Exec(s.db, JobStmt(s, j)));
    } else {
      ResultsFrame(s.db, JobStmt(s, j));
      SameResultsKeeps(t, t.(db := Exec(s.db, JobStmt(s, j))));
    }
  }

  lemma CallStepKeeps(s: Sys, i: nat, a: CallStep)
    requires i < |s.calls| && CallEnabled(s.calls[i], a) && StoreInv(s)
    ensures StoreInv(CallLocal(s, i, a).(db := DbAfter(s, s.calls[i], a)))
  {
    CommitRecords(s, s.calls[i], a);
    var n := DbAfter(s, s.calls[i], a).entries;
    CallKeepsKeys(s, i, a, n);
    if !s.finalized {
      CallKeepsIntact(s, i, a, n);
    }
  }

  lemma PurgeKeeps(s: Sys, keys: set<ResultKey>)
    requires StoreInv(s) && s.finalized
    ensures StoreInv(s.(objects := s.objects - keys))
  {}

  lemma BookkeepingKeeps(s: Sys, step: Step)
    requires Delivery.Bookkeeping(step) && Enabled(s, step) && StoreInv(s)
    ensures StoreInv(Local(s, step))
  {}

  lemma StepKeeps(s: Sys, step: Step)
    requires Enabled(s, step) && StoreInv(s)
    ensures StoreInv(Apply(s, step))
  {
    if step.OnCall? {
      CallStepKeeps(s, step.call, step.action);
    } else if step.Job? {
      JobStepKeeps(s, step.job);
    } else if Delivery.Bookkeeping(step) {
      BookkeepingKeeps(s, step);
    } else if step.Purge? {
      PurgeKeeps(s, step.keys);
    } else {
      ResultsFrame(s.db, StmtOf(s, step));
      SameResultsKeeps(s, Apply(s, step));
    }
  }

  lemma {:induction false} StoreAlways(manifest: seq<ManifestEntry>, doc: StatusDoc, steps: seq<Step>)
    ensures StoreInv(After(Init(manifest, doc), steps))
  {
    if |steps| > 0 {
      StoreAlways(manifest, doc, steps[..|steps| - 1]);
      var s := After(Init(manifest, doc), steps[..|steps| - 1]);
      if Enabled(s, steps[|steps| - 1]) {
        StepKeeps(s, steps[|steps| - 1]);
      }
    }
  }
}
