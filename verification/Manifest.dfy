/** Manifest agreement: recovery's check of the persisted entries against the manifest
    re-derived from the input accepts exactly until a failed result is committed to
    an accepted entry whose dispatch was never marked. */
module Manifest {
  import opened BatchTypes
  import opened Statements
  import opened System
  import Lifecycle
  import Delivery

  /** How a rejected line looks in the entry table. */
  predicate Undispatched(e: Entry) {
    e.status == EntryFailed && e.attempts == 0
  }

  predicate Agrees(e: Entry, m: ManifestEntry) {
    && e.requestId == m.requestId && e.ordinal == m.ordinal && e.customId == m.customId
    && (Undispatched(e) <==> m.rejected)
  }

  ghost predicate SetAgrees(manifest: seq<ManifestEntry>, entries: seq<Entry>) {
    |entries| == |manifest| && forall i :: 0 <= i < |entries| ==> Agrees(entries[i], manifest[i])
  }

  method CheckManifestIntegrity(manifest: seq<ManifestEntry>, entries: seq<Entry>) returns (ok: bool)
    ensures ok <==> SetAgrees(manifest, entries)
  {
    if |entries| != |manifest| {
      return false;
    }
    for i := 0 to |entries|
      invariant forall k :: 0 <= k < i ==> Agrees(entries[k], manifest[k])
    {
      var e, m := entries[i], manifest[i];
      if e.requestId != m.requestId || e.ordinal != m.ordinal || e.customId != m.customId {
        return false;
      }
      var rejected := e.status == EntryFailed && e.attempts == 0;
      if rejected != m.rejected {
        return false;
      }
    }
    return true;
  }

  // ---- the entry set of every reachable state ----

  predicate Fits(e: Entry, m: ManifestEntry) {
    && e.requestId == m.requestId && e.ordinal == m.ordinal && e.customId == m.customId
    && (m.rejected ==> Undispatched(e))
  }

  ghost predicate SetFits(manifest: seq<ManifestEntry>, entries: seq<Entry>) {
    |entries| > 0 ==> |entries| == |manifest| && forall i :: 0 <= i < |entries| ==> Fits(entries[i], manifest[i])
  }

  ghost predicate Drifted(manifest: seq<ManifestEntry>, entries: seq<Entry>) {
    exists i :: 0 <= i < |entries| && i < |manifest| && !manifest[i].rejected && Undispatched(entries[i])
  }

  ghost predicate DriftInv(s: Sys) {
    SetFits(s.manifest, s.db.entries) && (s.unmarked <==> Drifted(s.manifest, s.db.entries))
  }

  lemma ActivationFits(manifest: seq<ManifestEntry>, db: Db, stmt: Stmt)
    requires stmt.Activate? && stmt.seed == ActivationEntries(manifest) && SetFits(manifest, db.entries)
    ensures SetFits(manifest, Exec(db, stmt).entries)
    ensures Drifted(manifest, Exec(db, stmt).entries) <==> Drifted(manifest, db.entries)
  {}

  lemma PlainFits(manifest: seq<ManifestEntry>, db: Db, stmt: Stmt)
    requires !stmt.Activate? && !stmt.Checkpoint? && SetFits(manifest, db.entries)
    ensures SetFits(manifest, Exec(db, stmt).entries)
    ensures Drifted(manifest, Exec(db, stmt).entries) <==> Drifted(manifest, db.entries)
  {
    var n := Exec(db, stmt).entries;
    assert |n| == |db.entries|;
    forall i | 0 <= i < |n| ensures Undispatched(n[i]) <==> Undispatched(db.entries[i]) {}
  }

  lemma CommitFits(manifest: seq<ManifestEntry>, db: Db, c: Call)
    requires c.phase.Stored? && SetFits(manifest, db.entries)
    ensures var n := Exec(db, CommitStmt(c)).entries;
            && SetFits(manifest, n)
            && (Drifted(manifest, n) <==>
                  Drifted(manifest, db.entries) || (Applies(db, CommitStmt(c)) && UnmarkedFailure(db, c)))
  {
    var n := Exec(db, CommitStmt(c)).entries;
    if Applies(db, CommitStmt(c)) {
      var x := IndexOf(db.entries, c.rid).value;
      assert forall i :: 0 <= i < |n| && i != x ==> n[i] == db.entries[i];
      assert !Undispatched(db.entries[x]) && !manifest[x].rejected;
      assert Undispatched(n[x]) <==> UnmarkedFailure(db, c);
      if Drifted(manifest, db.entries) {
        var i :| 0 <= i < |n| && !manifest[i].rejected && Undispatched(db.entries[i]);
        assert Undispatched(n[i]);
      }
    }
  }

  lemma StepFits(s: Sys, step: Step)
    requires Enabled(s, step) && DriftInv(s)
    ensures DriftInv(Apply(s, step))
  {
    var stmt := StmtOf(s, step);
    if step.OnCall? && step.action.Commit? {
      CommitFits(s.manifest, s.db, s.calls[step.call]);
    } else if step.Job? {
      Delivery.JobFrame(s, step.job);
      if stmt.Activate? {
        ActivationFits(s.manifest, s.db, stmt);
      } else {
        PlainFits(s.manifest, s.db, stmt);
      }
    } else {
      PlainFits(s.manifest, s.db, stmt);
    }
  }

  lemma {:induction false} DriftAlways(manifest: seq<ManifestEntry>, doc: StatusDoc, steps: seq<Step>)
    ensures var s := After(Init(manifest, doc), steps); s.manifest == manifest && DriftInv(s)
  {
    if |steps| > 0 {
      DriftAlways(manifest, doc, steps[..|steps| - 1]);
      var s := After(Init(manifest, doc), steps[..|steps| - 1]);
      if Enabled(s, steps[|steps| - 1]) {
        if steps[|steps| - 1].Job? {
          Delivery.JobFrame(s, steps[|steps| - 1].job);
        }
        StepFits(s, steps[|steps| - 1]);
      }
    }
  }

  /** In every reachable state of an activated batch, recovery's check accepts if and
      only if no failed result was ever committed to an unmarked entry. */
  lemma AgreementExact(manifest: seq<ManifestEntry>, doc: StatusDoc, steps: seq<Step>)
    ensures var s := After(Init(manifest, doc), steps);
            |s.db.entries| > 0 ==> (SetAgrees(manifest, s.db.entries) <==> !s.unmarked)
  {
    DriftAlways(manifest, doc, steps);
    var s := After(Init(manifest, doc), steps);
    if s.unmarked {
      var i :| 0 <= i < |s.db.entries| && !manifest[i].rejected && Undispatched(s.db.entries[i]);
      assert !Agrees(s.db.entries[i], manifest[i]);
    }
  }

  // ---- commits follow marks ----

  /** Some checkpoint call carries the error line of a request never submitted. */
  ghost predicate AnyUnsubmitted(s: Sys) {
    exists c :: 0 <= c < |s.calls| && s.calls[c].source.Unsubmitted?
  }

  ghost predicate MarkedFirst(s: Sys) {
    && (s.unmarked ==> AnyUnsubmitted(s))
    && (forall c :: 0 <= c < |s.calls| && !s.calls[c].source.Unsubmitted? ==> EntryMarked(s.db, s.calls[c].rid))
  }

  lemma CallsKeepSource(s: Sys, step: Step)
    requires Enabled(s, step) && (step.OnCall? || step.StartCall?)
    ensures |Apply(s, step).calls| >= |s.calls|
    ensures forall c :: 0 <= c < |s.calls| ==>
                          Apply(s, step).calls[c].source == s.calls[c].source && Apply(s, step).calls[c].rid == s.calls[c].rid
  {}

  lemma MarkedFirstStep(s: Sys, step: Step)
    requires Enabled(s, step) && Delivery.DeliveryInv(s) && MarkedFirst(s)
    ensures MarkedFirst(Apply(s, step))
  {
    Delivery.ExecIsLater(s.db, StmtOf(s, step));
    var t := Apply(s, step);
    if step.OnCall? || step.StartCall? {
      CallsKeepSource(s, step);
      if AnyUnsubmitted(s) {
        var c :| 0 <= c < |s.calls| && s.calls[c].source.Unsubmitted?;
        assert t.calls[c].source.Unsubmitted?;
      }
      if t.unmarked && !s.unmarked {
        assert t.calls[step.call].source.Unsubmitted?;
      }
    } else {
      if step.Job? {
        Delivery.JobFrame(s, step.job);
      }
      assert t.calls == s.calls && t.unmarked == s.unmarked;
    }
  }

  lemma {:induction false} MarkedFirstAlways(manifest: seq<ManifestEntry>, doc: StatusDoc, steps: seq<Step>)
    ensures MarkedFirst(After(Init(manifest, doc), steps))
  {
    if |steps| > 0 {
      MarkedFirstAlways(manifest, doc, steps[..|steps| - 1]);
      Delivery.DeliveryAlways(manifest, doc, steps[..|steps| - 1]);
      var s := After(Init(manifest, doc), steps[..|steps| - 1]);
      if Enabled(s, steps[|steps| - 1]) {
        MarkedFirstStep(s, steps[|steps| - 1]);
      }
    }
  }

  /** If commits on accepted entries only follow a successful mark, recovery's check
      accepts the entry set of every reachable state. */
  lemma ManifestAgreement(manifest: seq<ManifestEntry>, doc: StatusDoc, steps: seq<Step>)
    requires !AnyUnsubmitted(After(Init(manifest, doc), steps))
    ensures var s := After(Init(manifest, doc), steps);
            |s.db.entries| > 0 ==> SetAgrees(manifest, s.db.entries)
  {
    MarkedFirstAlways(manifest, doc, steps);
    AgreementExact(manifest, doc, steps);
  }

  /** The first run holds the activated batch at epoch one. */
  predicate Holds(s: Sys) {
    |s.runs| > 0 && s.runs[0].item.Some? && s.runs[0].item.value.epoch == 1 && s.runs[0].held.Some?
  }

  /** A batch of one accepted line, activated. */
  lemma OneLineActivated(m: ManifestEntry, doc: StatusDoc, p: ProcessorId) returns (s: Sys)
    requires Submitted(doc) && p != "" && !m.rejected
    ensures Lifecycle.Reachable([m], doc, s)
    ensures s.db.entries == [ActivationEntry(m)] && s.calls == [] && s.objects == map[]
    ensures OwnerFence(s.db, p, 1) && s.deliveries == [] && s.acked == {} && s.startupTasks == [] && Holds(s)
  {
    Lifecycle.ReachInit([m], doc);
    s := Init([m], doc);
    s := Lifecycle.ReachStep([m], doc, s, Job(Dequeues(p, 300000)));
    s := Lifecycle.ReachStep([m], doc, s, Job(Fetch(0)));
    s := Lifecycle.ReachStep([m], doc, s, Job(Activates(0, 300000)));
  }

  /** The error line of a request never submitted, stored and about to commit. */
  lemma UnsubmittedErrorStored(m: ManifestEntry, doc: StatusDoc, p: ProcessorId, c: Call) returns (s: Sys)
    requires Submitted(doc) && p != "" && !m.rejected
    requires c == Call(p, 1, m.requestId, c.line, EntryFailed, c.errorCode, Unsubmitted, Received)
    ensures Lifecycle.Reachable([m], doc, s)
    ensures s.db.entries == [ActivationEntry(m)] && OwnerFence(s.db, p, 1)
    ensures s.calls == [c.(phase := Stored(Canonical(m.requestId)))]
  {
    s := OneLineActivated(m, doc, p);
    s := Lifecycle.ReachStep([m], doc, s, StartCall(c));
    s := Lifecycle.ReachStep([m], doc, s, OnCall(0, LookUp));
    s := Lifecycle.ReachStep([m], doc, s, OnCall(0, PutCanonical(false)));
  }

  /** A transient mark failure (like a parse failure or a cancellation) breaks it: its
      error line commits as a failure with zero attempts, which recovery reads as a
      rejected line. */
  lemma UnsubmittedErrorBreaksRecovery(m: ManifestEntry, doc: StatusDoc, p: ProcessorId, line: Bytes) returns (s: Sys)
    requires Submitted(doc) && p != "" && !m.rejected
    ensures Lifecycle.Reachable([m], doc, s)
    ensures !s.db.row.Terminal() && |s.db.entries| == 1 && !SetAgrees([m], s.db.entries)
  {
    var c := Call(p, 1, m.requestId, line, EntryFailed, "server_error", Unsubmitted, Received);
    s := UnsubmittedErrorStored(m, doc, p, c);
    s := Lifecycle.ReachStep([m], doc, s, OnCall(0, Commit(false)));
    assert !Agrees(s.db.entries[0], [m][0]);
  }
}
