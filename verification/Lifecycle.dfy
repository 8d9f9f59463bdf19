/** The life of the row in the full system: its shape in every reachable state, and
    when a terminal status is final. */
module Lifecycle {
  import opened BatchTypes
  import opened Statements
  import opened System
  import Ownership
  import Delivery

  // ---- row shape, with no assumption on the actors ----

  /** The lease is held by the owner of an activated batch and by nobody else; an
      activated batch has entries; a batch with entries is activated or terminal. */
  predicate RowInv(db: Db) {
    && Ownership.LeaseShape(db.row)
    && (db.row.resumable ==> |db.entries| > 0 && db.row.doc.status != Validating)
    && (|db.entries| > 0 ==> db.row.resumable || db.row.Terminal())
  }

  /** The plain terminal writes: fenced on the epoch at most. */
  predicate LegacyForm(w: StatusWrite) {
    IsTerminal(w.doc.status) && !w.bump && w.expectedResumable.None?
  }

  predicate SystemForm(stmt: Stmt) {
    match stmt
    case Finalize(_, _, _, doc) => IsTerminal(doc.status)
    case UpdateStatus(w) => CancelForm(w) || OrphanForm(w) || FinalizingForm(w) || LegacyForm(w)
    case _ => true
  }

  lemma StepForm(s: Sys, step: Step)
    requires Enabled(s, step)
    ensures SystemForm(StmtOf(s, step))
  {}

  lemma RowStep(db: Db, stmt: Stmt)
    requires SystemForm(stmt) && RowInv(db)
    ensures RowInv(Exec(db, stmt))
  {}

  lemma {:induction false} RowShapeAlways(manifest: seq<ManifestEntry>, doc: StatusDoc, steps: seq<Step>)
    ensures RowInv(After(Init(manifest, doc), steps).db)
  {
    if |steps| > 0 {
      RowShapeAlways(manifest, doc, steps[..|steps| - 1]);
      var s := After(Init(manifest, doc), steps[..|steps| - 1]);
      if Enabled(s, steps[|steps| - 1]) {
        StepForm(s, steps[|steps| - 1]);
        RowStep(s.db, StmtOf(s, steps[|steps| - 1]));
      }
    }
  }

  // ---- settled rows ----

  /** Finished and released: cancelled in the queue, transitioned as an orphan, or
      finalized by its owner. */
  predicate Settled(row: Row) {
    row.Terminal() && !row.resumable
  }

  /** A statement that claims, hands back, executes or finalizes the batch. */
  predicate Works(stmt: Stmt) {
    !stmt.Tick? && !stmt.RecordSubmitter? && !stmt.UpdateStatus?
  }

  lemma SettledStep(db: Db, stmt: Stmt)
    requires SystemForm(stmt) && Settled(db.row)
    ensures Settled(Exec(db, stmt).row)
    ensures Works(stmt) ==> !Applies(db, stmt)
  {}

  /** A queued job is claimed or cancelled in the queue, never both: once a batch is
      settled, no claim, activation, mark, checkpoint, renewal, requeue or
      finalization ever takes effect on it again, whatever the actors do. */
  lemma {:induction false} SettledForever(manifest: seq<ManifestEntry>, doc: StatusDoc, steps: seq<Step>, k: nat)
    requires k <= |steps| && Settled(After(Init(manifest, doc), steps[..k]).db.row)
    ensures var s := After(Init(manifest, doc), steps);
            && Settled(s.db.row)
            && forall step :: Enabled(s, step) && Works(StmtOf(s, step)) ==> !Applies(s.db, StmtOf(s, step))
    decreases |steps|
  {
    var s := After(Init(manifest, doc), steps);
    if k == |steps| {
      assert steps[..k] == steps;
    } else {
      var front := steps[..|steps| - 1];
      assert front[..k] == steps[..k];
      SettledForever(manifest, doc, front, k);
      var before := After(Init(manifest, doc), front);
      if Enabled(before, steps[|steps| - 1]) {
        StepForm(before, steps[|steps| - 1]);
        SettledStep(before.db, StmtOf(before, steps[|steps| - 1]));
      }
    }
    forall step | Enabled(s, step) && Works(StmtOf(s, step)) ensures !Applies(s.db, StmtOf(s, step)) {
      StepForm(s, step);
      SettledStep(s.db, StmtOf(s, step));
    }
  }

  /** Cancelling a queued job settles it. */
  lemma QueueCancelSettles(db: Db)
    requires Applies(db, DeleteQueued)
    ensures db.row.processor.None? && Settled(Exec(db, DeleteQueued).row)
  {}

  // ---- files and finalization ----

  predicate NoFileRead(r: JobRun) {
    && (r.item.Some? ==> !NamesFile(r.item.value.doc))
    && (r.held.Some? ==> !NamesFile(r.held.value))
  }

  /** What the runs have read names no file. */
  ghost predicate NoFilesRead(runs: seq<JobRun>) {
    forall r :: 0 <= r < |runs| ==> NoFileRead(runs[r])
  }

  /** A document that names a file, in the row or in what a run read, and a finalization
      that reported success, all mean that the batch is settled. */
  ghost predicate FilesInv(s: Sys) {
    && (NamesFile(s.db.row.doc) ==> Settled(s.db.row))
    && (!Settled(s.db.row) ==> NoFilesRead(s.runs))
    && (s.finalized ==> Settled(s.db.row))
  }

  /** No step names a file in the row without settling it. */
  lemma FilesStmt(s: Sys, step: Step)
    requires FilesInv(s) && Enabled(s, step) && !Settled(s.db.row)
    ensures var n := Exec(s.db, StmtOf(s, step)).row; NamesFile(n.doc) ==> Settled(n)
  {}

  lemma FilesRead(s: Sys, j: JobStep)
    requires NoFilesRead(s.runs) && !NamesFile(s.db.row.doc) && JobEnabled(s, j)
    ensures NoFilesRead(JobLocal(s, j).runs)
  {}

  lemma FilesStep(s: Sys, step: Step)
    requires FilesInv(s) && Enabled(s, step)
    ensures FilesInv(Apply(s, step))
  {
    if Settled(s.db.row) {
      StepForm(s, step);
      SettledStep(s.db, StmtOf(s, step));
    } else {
      FilesStmt(s, step);
      if step.Job? {
        Delivery.JobFrame(s, step.job);
        FilesRead(s, step.job);
      }
    }
  }

  /** In every reachable state a finalization that reported success has settled the row
      for good, whether it committed or found its own document. */
  lemma {:induction false} FinalizedSettles(manifest: seq<ManifestEntry>, doc: StatusDoc, steps: seq<Step>)
    ensures FilesInv(After(Init(manifest, doc), steps))
  {
    if |steps| > 0 {
      FinalizedSettles(manifest, doc, steps[..|steps| - 1]);
      var s := After(Init(manifest, doc), steps[..|steps| - 1]);
      if Enabled(s, steps[|steps| - 1]) {
        FilesStep(s, steps[|steps| - 1]);
      }
    }
  }

  // ---- what changes a terminal row ----

  /** A plain write of a run that read the row at its present epoch (or at zero): the
      expired or cancelled write of a fresh run that is not closed, or a failed write,
      which also compares the document. */
  predicate Overwrites(s: Sys, step: Step) {
    && step.Job? && (step.job.LegacyWrite? || step.job.LegacyFail?) && JobEnabled(s, step.job)
    && s.runs[step.job.run].item.value.epoch in {0, s.db.row.epoch}
    && (step.job.LegacyFail? ==> s.runs[step.job.run].item.value.doc == s.db.row.doc)
    && step.job.doc != s.db.row.doc
  }

  /** The announcement of a run on a row that is still activated. */
  predicate Revives(s: Sys, step: Step) {
    && step.Job? && step.job.Announces? && JobEnabled(s, step.job)
    && s.runs[step.job.run].item.value.epoch in {0, s.db.row.epoch} && s.db.row.resumable
  }

  /** The owner's fenced finalization of a row that is still activated. */
  predicate Releases(s: Sys, step: Step) {
    step.Finalizes? && Enabled(s, step) && Applies(s.db, StmtOf(s, step))
  }

  predicate Changes(s: Sys, step: Step) {
    Overwrites(s, step) || Revives(s, step) || Releases(s, step)
  }

  /** Exactly which step changes a terminal row, in any column. */
  lemma TerminalChangesIff(s: Sys, step: Step)
    requires s.db.row.Terminal()
    ensures Apply(s, step).db.row != s.db.row <==> Changes(s, step)
  {
    if Enabled(s, step) {
      StepForm(s, step);
    }
  }

  function StateAt(manifest: seq<ManifestEntry>, doc: StatusDoc, steps: seq<Step>, j: nat): Sys
    requires j <= |steps|
  {
    After(Init(manifest, doc), steps[..j])
  }

  lemma NextState(manifest: seq<ManifestEntry>, doc: StatusDoc, steps: seq<Step>, j: nat)
    requires j < |steps|
    ensures StateAt(manifest, doc, steps, j + 1) == Apply(StateAt(manifest, doc, steps, j), steps[j])
  {
    assert steps[..j + 1][..j] == steps[..j];
  }

  lemma {:induction false} RowStays(manifest: seq<ManifestEntry>, doc: StatusDoc, steps: seq<Step>, k: nat, n: nat)
    requires k <= n <= |steps| && StateAt(manifest, doc, steps, k).db.row.Terminal()
    requires forall j: nat :: k <= j < n ==> !Changes(StateAt(manifest, doc, steps, j), steps[j])
    ensures StateAt(manifest, doc, steps, n).db.row == StateAt(manifest, doc, steps, k).db.row
  {
    if k < n {
      RowStays(manifest, doc, steps, k, n - 1);
      NextState(manifest, doc, steps, n - 1);
      TerminalChangesIff(StateAt(manifest, doc, steps, n - 1), steps[n - 1]);
    }
  }

  /** Terminal is absorbing in exactly these runs: from a terminal row on, the row keeps
      every column through the rest of the run if and only if no step of it is such a
      plain write, announcement or finalization. */
  lemma TerminalStaysIff(manifest: seq<ManifestEntry>, doc: StatusDoc, steps: seq<Step>, k: nat)
    requires k <= |steps| && StateAt(manifest, doc, steps, k).db.row.Terminal()
    ensures (forall j: nat :: k <= j <= |steps| ==>
               StateAt(manifest, doc, steps, j).db.row == StateAt(manifest, doc, steps, k).db.row) <==>
            (forall j: nat :: k <= j < |steps| ==> !Changes(StateAt(manifest, doc, steps, j), steps[j]))
  {
    if forall j: nat :: k <= j < |steps| ==> !Changes(StateAt(manifest, doc, steps, j), steps[j]) {
      forall j: nat | k <= j <= |steps|
        ensures StateAt(manifest, doc, steps, j).db.row == StateAt(manifest, doc, steps, k).db.row
      {
        RowStays(manifest, doc, steps, k, j);
      }
    } else {
      var j: nat :| k <= j < |steps| && Changes(StateAt(manifest, doc, steps, j), steps[j]);
      FirstChange(manifest, doc, steps, k, j);
    }
  }

  lemma {:induction false} FirstChange(manifest: seq<ManifestEntry>, doc: StatusDoc, steps: seq<Step>, k: nat, j: nat)
    requires k <= j < |steps| && StateAt(manifest, doc, steps, k).db.row.Terminal()
    requires Changes(StateAt(manifest, doc, steps, j), steps[j])
    ensures exists i: nat :: k <= i <= |steps| &&
              StateAt(manifest, doc, steps, i).db.row != StateAt(manifest, doc, steps, k).db.row
    decreases j
  {
    if i: nat :| k <= i < j && Changes(StateAt(manifest, doc, steps, i), steps[i]) {
      FirstChange(manifest, doc, steps, k, i);
    } else {
      RowStays(manifest, doc, steps, k, j);
      NextState(manifest, doc, steps, j);
      TerminalChangesIff(StateAt(manifest, doc, steps, j), steps[j]);
    }
  }

  // ---- terminal is final, when no fresh pickup reads another claim's row ----

  /** No fresh run ever read its row at an epoch other than the one it claimed. */
  ghost predicate Matched(s: Sys) {
    forall r :: 0 <= r < |s.runs| && !s.runs[r].resumed ==> !s.runs[r].stale
  }

  predicate RunInv(db: Db, r: JobRun) {
    && 1 <= r.claim <= db.row.epoch
    && (r.item.Some? && !r.stale ==> r.item.value.epoch == r.claim)
    && (r.item.Some? && !r.stale && !r.resumed ==> !IsTerminal(r.item.value.doc.status))
    && (r.claim == db.row.epoch && (|db.entries| > 0 || db.row.Terminal()) ==> !LegacyOpen(r))
    && (r.claim == db.row.epoch && !r.resumed && |db.entries| > 0 ==>
          r.item.Some? && r.item.value.doc.status == Validating)
    && (r.claim == db.row.epoch && !r.resumed && r.item.Some? && db.row.doc.status == Validating ==>
          r.item.value.doc.status == Validating)
  }

  ghost predicate ClaimsAscend(runs: seq<JobRun>) {
    forall r, q :: 0 <= r < q < |runs| ==> runs[r].claim < runs[q].claim
  }

  ghost predicate LifeInv(s: Sys) {
    && RowInv(s.db)
    && (s.db.row.Terminal() ==> !s.db.row.resumable)
    && ClaimsAscend(s.runs)
    && (forall r :: 0 <= r < |s.runs| ==> RunInv(s.db, s.runs[r]))
  }

  /** A statement of the system that is not a plain terminal write and not an
      activation keeps what the invariant says of each run. */
  lemma StmtKeepsRun(db: Db, stmt: Stmt, r: JobRun)
    requires SystemForm(stmt) && RowInv(db) && RunInv(db, r)
    requires !stmt.Activate? && !(stmt.UpdateStatus? && LegacyForm(stmt.write))
    ensures RunInv(Exec(db, stmt), r)
  {}

  lemma StmtKeepsRow(db: Db, stmt: Stmt)
    requires SystemForm(stmt) && RowInv(db) && (db.row.Terminal() ==> !db.row.resumable)
    requires !(stmt.UpdateStatus? && LegacyForm(stmt.write))
    ensures var n := Exec(db, stmt).row;
            && (n.Terminal() ==> !n.resumable)
            && (db.row.Terminal() ==> n == db.row)
  {}

  /** Any step that leaves the job runs alone. */
  lemma PlainStepKeeps(s: Sys, stmt: Stmt, t: Sys)
    requires LifeInv(s) && SystemForm(stmt) && t.db == Exec(s.db, stmt) && t.runs == s.runs
    requires !stmt.Activate? && !(stmt.UpdateStatus? && LegacyForm(stmt.write))
    ensures LifeInv(t)
  {
    RowStep(s.db, stmt);
    StmtKeepsRow(s.db, stmt);
    forall r | 0 <= r < |t.runs| ensures RunInv(t.db, t.runs[r]) {
      StmtKeepsRun(s.db, stmt, s.runs[r]);
    }
  }

  /** A new claim starts a run that outranks every earlier one. */
  lemma ClaimKeeps(s: Sys, j: JobStep)
    requires LifeInv(s) && JobEnabled(s, j) && (j.Dequeues? || j.Claims?)
    ensures LifeInv(JobLocal(s, j).(db := Exec(s.db, JobStmt(s, j))))
  {
    var stmt := JobStmt(s, j);
    var t := JobLocal(s, j).(db := Exec(s.db, stmt));
    PlainStepKeeps(s, stmt, s.(db := t.db));
  }

  /** Runs that read, store or execute change nothing the invariant speaks of. */
  lemma QuietRunKeeps(s: Sys, j: JobStep)
    requires LifeInv(s) && JobEnabled(s, j) && (j.Fetch? || j.PutRejected? || j.Executes? || j.Refresh?)
    requires Matched(JobLocal(s, j))
    ensures LifeInv(JobLocal(s, j))
  {
    var t := JobLocal(s, j);
    assert RunInv(s.db, s.runs[j.run]);
    forall r | 0 <= r < |t.runs| ensures RunInv(t.db, t.runs[r]) {
      assert RunInv(s.db, s.runs[r]);
    }
  }

  /** A plain terminal write or an activation by run i, seen by any run r. */
  lemma WriteKeepsRun(s: Sys, j: JobStep, r: nat)
    requires LifeInv(s) && JobEnabled(s, j) && (j.Activates? || j.LegacyWrite? || j.LegacyFail?)
    requires Matched(s) && r < |s.runs|
    ensures var t := JobLocal(s, j); r < |t.runs| && RunInv(Exec(s.db, JobStmt(s, j)), t.runs[r])
  {
    var i := j.run;
    assert RunInv(s.db, s.runs[i]) && RunInv(s.db, s.runs[r]);
    assert s.runs[i].item.value.epoch == s.runs[i].claim;
    if r != i {
      assert s.runs[r].claim != s.runs[i].claim;
    }
  }

  lemma WriteKeepsRow(s: Sys, j: JobStep)
    requires LifeInv(s) && JobEnabled(s, j) && (j.Activates? || j.LegacyWrite? || j.LegacyFail?)
    requires Matched(s)
    ensures var n := Exec(s.db, JobStmt(s, j)).row;
            && (n.Terminal() ==> !n.resumable)
            && (s.db.row.Terminal() ==> n == s.db.row)
  {
    assert RunInv(s.db, s.runs[j.run]);
    assert s.runs[j.run].item.value.epoch == s.runs[j.run].claim;
  }

  lemma WriteKeeps(s: Sys, j: JobStep)
    requires LifeInv(s) && JobEnabled(s, j) && (j.Activates? || j.LegacyWrite? || j.LegacyFail?)
    requires Matched(s)
    ensures LifeInv(JobLocal(s, j).(db := Exec(s.db, JobStmt(s, j))))
  {
    var stmt := JobStmt(s, j);
    StepForm(s, Job(j));
    RowStep(s.db, stmt);
    WriteKeepsRow(s, j);
    forall r | 0 <= r < |s.runs| ensures RunInv(Exec(s.db, stmt), JobLocal(s, j).runs[r]) {
      WriteKeepsRun(s, j, r);
    }
  }

  /** A run never forgets that it read another claim's row. */
  lemma StaleStays(s: Sys, j: JobStep)
    requires JobEnabled(s, j)
    ensures var t := JobLocal(s, j);
            && |s.runs| <= |t.runs|
            && forall r :: 0 <= r < |s.runs| ==>
                 t.runs[r].resumed == s.runs[r].resumed && (s.runs[r].stale ==> t.runs[r].stale)
  {}

  lemma MatchedEarlier(s: Sys, step: Step)
    requires Matched(Apply(s, step))
    ensures Matched(s)
  {
    if Enabled(s, step) && step.Job? {
      StaleStays(s, step.job);
    }
  }

  lemma JobStepKeeps(s: Sys, j: JobStep)
    requires LifeInv(s) && JobEnabled(s, j) && Matched(Apply(s, Job(j)))
    ensures LifeInv(Apply(s, Job(j)))
  {
    MatchedEarlier(s, Job(j));
    if j.Dequeues? || j.Claims? {
      ClaimKeeps(s, j);
    } else if j.StartupRead? || j.StartupRequeue? || j.Announces? {
      PlainStepKeeps(s, JobStmt(s, j), Apply(s, Job(j)));
    } else if j.Fetch? || j.PutRejected? || j.Executes? || j.Refresh? {
      QuietRunKeeps(s, j);
    } else {
      WriteKeeps(s, j);
    }
  }

  lemma StepKeeps(s: Sys, step: Step)
    requires LifeInv(s) && Enabled(s, step) && Matched(Apply(s, step))
    ensures LifeInv(Apply(s, step))
  {
    if step.Job? {
      JobStepKeeps(s, step.job);
    } else {
      StepForm(s, step);
      PlainStepKeeps(s, StmtOf(s, step), Apply(s, step));
    }
  }

  lemma {:induction false} LifeAlways(manifest: seq<ManifestEntry>, doc: StatusDoc, steps: seq<Step>)
    requires Matched(After(Init(manifest, doc), steps))
    ensures LifeInv(After(Init(manifest, doc), steps))
  {
    if |steps| > 0 {
      var s := After(Init(manifest, doc), steps[..|steps| - 1]);
      MatchedEarlier(s, steps[|steps| - 1]);
      LifeAlways(manifest, doc, steps[..|steps| - 1]);
      if Enabled(s, steps[|steps| - 1]) {
        StepKeeps(s, steps[|steps| - 1]);
      }
    }
  }

  lemma TerminalStep(s: Sys, step: Step)
    requires LifeInv(s) && Enabled(s, step) && Matched(s) && s.db.row.Terminal()
    ensures Apply(s, step).db.row == s.db.row
  {
    if step.Job? && (step.job.Activates? || step.job.LegacyWrite? || step.job.LegacyFail?) {
      WriteKeepsRow(s, step.job);
    } else {
      StepForm(s, step);
      StmtKeepsRow(s.db, StmtOf(s, step));
    }
  }

  /** Terminal is absorbing: in a run whose fresh pickups read the rows they claimed, a
      terminal row never changes again, in any column. */
  lemma {:induction false} TerminalIsFinal(manifest: seq<ManifestEntry>, doc: StatusDoc, steps: seq<Step>, k: nat)
    requires k <= |steps|
    requires Matched(After(Init(manifest, doc), steps))
    requires After(Init(manifest, doc), steps[..k]).db.row.Terminal()
    ensures After(Init(manifest, doc), steps).db.row == After(Init(manifest, doc), steps[..k]).db.row
    decreases |steps|
  {
    if k == |steps| {
      assert steps[..k] == steps;
    } else {
      var front := steps[..|steps| - 1];
      var s := After(Init(manifest, doc), front);
      assert front[..k] == steps[..k];
      MatchedEarlier(s, steps[|steps| - 1]);
      TerminalIsFinal(manifest, doc, front, k);
      LifeAlways(manifest, doc, front);
      if Enabled(s, steps[|steps| - 1]) {
        TerminalStep(s, steps[|steps| - 1]);
      }
    }
  }

  // ---- without that condition ----

  ghost predicate Reachable(manifest: seq<ManifestEntry>, doc: StatusDoc, s: Sys) {
    exists steps :: After(Init(manifest, doc), steps) == s
  }

  lemma ReachStep(manifest: seq<ManifestEntry>, doc: StatusDoc, s: Sys, step: Step) returns (t: Sys)
    requires Reachable(manifest, doc, s)
    ensures t == Apply(s, step) && Reachable(manifest, doc, t)
  {
    t := Apply(s, step);
    var steps :| After(Init(manifest, doc), steps) == s;
    var longer := steps + [step];
    assert longer[..|steps|] == steps;
    assert After(Init(manifest, doc), longer) == Apply(s, step);
  }

  lemma ReachInit(manifest: seq<ManifestEntry>, doc: StatusDoc)
    ensures Reachable(manifest, doc, Init(manifest, doc))
  {
    assert After(Init(manifest, doc), []) == Init(manifest, doc);
  }

  /** Processor p claims a job and stalls; the reconciler hands the job to q; p's
      read of the row then returns q's epoch. */
  lemma StalePickup(manifest: seq<ManifestEntry>, doc: StatusDoc, p: ProcessorId, q: ProcessorId) returns (s: Sys)
    requires Submitted(doc) && p != "" && q != ""
    ensures Reachable(manifest, doc, s)
    ensures s.db == Db(Row(doc, Some(q), 3, 0, false, None), [], 0)
    ensures s.manifest == manifest && s.objects == map[]
    ensures |s.runs| == 2
    ensures s.runs[0] == JobRun(p, 1, FromQueue, false, 0, Some(ReadItem(s.db.row)), true, {}, false, false, false, None)
    ensures s.runs[1] == JobRun(q, 3, FromQueue, false, 0, Some(ReadItem(s.db.row)), false, {}, false, false, false, None)
  {
    ReachInit(manifest, doc);
    s := Init(manifest, doc);
    s := ReachStep(manifest, doc, s, Job(Dequeues(p, 300000)));
    s := ReachStep(manifest, doc, s, Issue(Enqueue(p, 1, Validating)));
    s := ReachStep(manifest, doc, s, Job(Dequeues(q, 300000)));
    s := ReachStep(manifest, doc, s, Job(Fetch(0)));
    s := ReachStep(manifest, doc, s, Job(Fetch(1)));
  }

  /** The stalled pickup's successor activates a batch whose one line is rejected. */
  lemma SuccessorActivates(m: ManifestEntry, doc: StatusDoc, p: ProcessorId, q: ProcessorId) returns (s: Sys)
    requires Submitted(doc) && p != "" && q != "" && m.rejected
    ensures Reachable([m], doc, s)
    ensures s.db.row == Row(doc.(status := InProgress, since := 0), Some(q), 3, 0, true, Some(300))
    ensures s.db.now == 0 && |s.db.entries| == 1
    ensures |s.runs| == 2 && s.runs[0].stale && LegacyOpen(s.runs[0]) && s.runs[0].origin == FromQueue
    ensures s.runs[0].item.Some? && s.runs[0].item.value.epoch == 3
    ensures s.runs[1].item.Some? && s.runs[1].item.value.epoch == 3 && s.runs[1].held == Some(doc)
  {
    s := StalePickup([m], doc, p, q);
    s := ReachStep([m], doc, s, Job(PutRejected(1, 0)));
    assert s.runs[1].puts == {0};
    s := ReachStep([m], doc, s, Job(Activates(1, 300000)));
  }

  lemma SuccessorAnnounces(m: ManifestEntry, doc: StatusDoc, p: ProcessorId, q: ProcessorId) returns (s: Sys)
    requires Submitted(doc) && p != "" && q != "" && m.rejected
    ensures Reachable([m], doc, s)
    ensures s.db.row == Row(doc.(status := Finalizing), Some(q), 3, 0, true, Some(300))
    ensures s.db.now == 0 && |s.db.entries| == 1
    ensures |s.runs| == 2 && s.runs[0].stale && LegacyOpen(s.runs[0]) && s.runs[0].origin == FromQueue
    ensures s.runs[0].item.Some? && s.runs[0].item.value.epoch == 3
    ensures s.runs[1].item.Some? && s.runs[1].item.value.epoch == 3 && s.runs[1].held == Some(doc)
  {
    s := SuccessorActivates(m, doc, p, q);
    s := ReachStep([m], doc, s, Job(Announces(1, doc.(status := Finalizing))));
  }

  /** Terminal is then not final: q completes the batch, and p's plain expired write
      replaces the completed status, its files and counts included. */
  lemma StalePickupOverwritesCompleted(m: ManifestEntry, doc: StatusDoc, done: StatusDoc, expired: StatusDoc,
                                       p: ProcessorId, q: ProcessorId)
    returns (s: Sys, last: Step)
    requires Submitted(doc) && p != "" && q != "" && m.rejected
    requires done.status == Completed && NamesFile(done) && expired.status == Expired && !NamesFile(expired)
    ensures Reachable([m], doc, s) && !Matched(s)
    ensures |s.db.entries| == 1 && s.finalized && s.db.row.doc == done
    ensures Apply(s, last).db.row.doc == expired
  {
    s := SuccessorAnnounces(m, doc, p, q);
    s := ReachStep([m], doc, s, Finalizes(q, 3, Finalizing, done));
    last := Job(LegacyWrite(0, expired));
  }

  /** Nor is a terminal row always released: p's plain write lands on the row q has
      activated, and q's announcement then makes it non-terminal again. */
  lemma AnnouncementRevivesExpired(m: ManifestEntry, doc: StatusDoc, expired: StatusDoc, p: ProcessorId, q: ProcessorId)
    returns (s: Sys, last: Step)
    requires Submitted(doc) && p != "" && q != "" && m.rejected
    requires expired.status == Expired && !NamesFile(expired)
    ensures Reachable([m], doc, s) && !Matched(s)
    ensures s.db.row.doc == expired && s.db.row.resumable && Revives(s, last)
    ensures !Apply(s, last).db.row.Terminal()
  {
    s := SuccessorActivates(m, doc, p, q);
    s := ReachStep([m], doc, s, Job(LegacyWrite(0, expired)));
    assert s.runs[0].stale && !s.runs[0].resumed;
    last := Job(Announces(1, doc.(status := Finalizing)));
  }

  /** The row of a batch that p has claimed four times at startup, beyond its budget. */
  lemma ClaimedBeyondBudget(manifest: seq<ManifestEntry>, doc: StatusDoc, p: ProcessorId) returns (s: Sys)
    requires Submitted(doc) && p != ""
    ensures Reachable(manifest, doc, s)
    ensures s.db == Db(Row(doc, Some(p), 5, 4, false, None), [], 0) && s.listings == {}
    ensures |s.runs| == 5
    ensures s.runs[4] == JobRun(p, 5, Exhausted, false, 0, None, false, {}, false, false, false, None)
  {
    ReachInit(manifest, doc);
    s := Init(manifest, doc);
    s := ReachStep(manifest, doc, s, Job(Dequeues(p, 300000)));
    s := ReachStep(manifest, doc, s, Job(Claims(p)));
    s := ReachStep(manifest, doc, s, Job(Claims(p)));
    s := ReachStep(manifest, doc, s, Job(Claims(p)));
    s := ReachStep(manifest, doc, s, Job(Claims(p)));
  }

  /** Before p reads it back, the batch is cancelled and the reconciler settles it. */
  lemma CancelledMeanwhile(manifest: seq<ManifestEntry>, doc: StatusDoc, p: ProcessorId) returns (s: Sys)
    requires Submitted(doc) && p != ""
    ensures Reachable(manifest, doc, s)
    ensures s.db == Db(Row(doc.(status := Cancelled), Some(p), 6, 4, false, None), [], 0)
    ensures |s.runs| == 5
    ensures s.runs[4] == JobRun(p, 5, Exhausted, false, 0, None, false, {}, false, false, false, None)
  {
    s := ClaimedBeyondBudget(manifest, doc, p);
    var cancelling := doc.(status := Cancelling);
    s := ReachStep(manifest, doc, s, Issue(UpdateStatus(StatusWrite(cancelling, 5, false, Some(doc), Some(false)))));
    s := ReachStep(manifest, doc, s, Lists);
    s := ReachStep(manifest, doc, s, Orphans(Item(Some(p), 5, 4, cancelling), doc.(status := Cancelled)));
  }

  /** Nor is a settled status final: the failed write of the exhausted claim compares with
      the cancelled document it has just read, and replaces it. */
  lemma ExhaustedClaimOverwritesCancelled(manifest: seq<ManifestEntry>, doc: StatusDoc, p: ProcessorId)
    returns (s: Sys, last: Step)
    requires Submitted(doc) && p != ""
    ensures Reachable(manifest, doc, s) && !Matched(s)
    ensures Settled(s.db.row) && s.db.row.doc.status == Cancelled && Overwrites(s, last)
    ensures Apply(s, last).db.row.doc.status == Failed
  {
    s := CancelledMeanwhile(manifest, doc, p);
    s := ReachStep(manifest, doc, s, Job(Fetch(4)));
    assert s.runs[4].stale && !s.runs[4].resumed;
    last := Job(LegacyFail(4, doc.(status := Failed)));
  }
}
