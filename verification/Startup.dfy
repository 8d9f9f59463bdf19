/** The startup requeue of an activated batch: claimed under a new epoch, read back, and
    handed to the queue under the epoch that was read. */
module Startup {
  import opened BatchTypes
  import opened Statements
  import opened System
  import Ownership
  import Lifecycle
  import Delivery
  import Manifest

  /** A task's claim and its read, against the row as it is now. */
  predicate TaskInv(row: Row, t: StartupTask) {
    && 1 <= t.claim <= row.epoch
    && (row.epoch == t.claim ==> row.processor == Some(t.claimant))
    && (t.read.Some? ==> t.claim <= t.read.value.epoch <= row.epoch)
    && (t.read.Some? && t.read.value.epoch == t.claim ==> t.read.value.processor == Some(t.claimant))
  }

  ghost predicate TasksInv(s: Sys) {
    forall i :: 0 <= i < |s.startupTasks| ==> TaskInv(s.db.row, s.startupTasks[i])
  }

  /** Time passes: the row moves on to later epochs, or keeps its owner. */
  lemma TaskLater(db: Db, stmt: Stmt, t: StartupTask)
    requires TaskInv(db.row, t)
    ensures TaskInv(Exec(db, stmt).row, t)
  {
    Ownership.StepEpoch(db, stmt);
  }

  /** The tasks after a job step: the same, one newly claimed, read or done. */
  lemma TaskStep(s: Sys, j: JobStep, i: nat)
    requires TasksInv(s) && JobEnabled(s, j) && i < |JobLocal(s, j).startupTasks|
    ensures TaskInv(Exec(s.db, JobStmt(s, j)).row, JobLocal(s, j).startupTasks[i])
  {
    if i < |s.startupTasks| {
      assert TaskInv(s.db.row, s.startupTasks[i]);
      assert TaskInv(s.db.row, JobLocal(s, j).startupTasks[i]);
      TaskLater(s.db, JobStmt(s, j), JobLocal(s, j).startupTasks[i]);
    }
  }

  lemma StepKeeps(s: Sys, step: Step)
    requires TasksInv(s) && Enabled(s, step)
    ensures TasksInv(Apply(s, step))
  {
    var t := Apply(s, step);
    forall i | 0 <= i < |t.startupTasks| ensures TaskInv(t.db.row, t.startupTasks[i]) {
      if step.Job? {
        TaskStep(s, step.job, i);
      } else {
        assert t.startupTasks == s.startupTasks;
        TaskLater(s.db, StmtOf(s, step), s.startupTasks[i]);
      }
    }
  }

  lemma {:induction false} TasksAlways(manifest: seq<ManifestEntry>, doc: StatusDoc, steps: seq<Step>)
    ensures TasksInv(After(Init(manifest, doc), steps))
  {
    if |steps| > 0 {
      TasksAlways(manifest, doc, steps[..|steps| - 1]);
      var s := After(Init(manifest, doc), steps[..|steps| - 1]);
      if Enabled(s, steps[|steps| - 1]) {
        StepKeeps(s, steps[|steps| - 1]);
      }
    }
  }

  /** The requeue takes effect on a row that was claimed again after the task's claim. */
  predicate TakesFromLaterClaim(s: Sys, t: StartupTask)
    requires t.read.Some?
  {
    Applies(s.db, StartupStmt(t)) && t.claim < s.db.row.epoch
  }

  /** In every reachable state a startup requeue takes the row from a later claim if and
      only if the epoch it read is not the one it claimed and the fence still holds; if
      the epochs agree it hands back its own claim, or nothing. The processor holds both
      epochs before the call. */
  lemma DisplacementExact(manifest: seq<ManifestEntry>, doc: StatusDoc, steps: seq<Step>, i: nat)
    requires var s := After(Init(manifest, doc), steps); i < |s.startupTasks| && s.startupTasks[i].read.Some?
    ensures var s := After(Init(manifest, doc), steps);
            var t := s.startupTasks[i];
            && (TakesFromLaterClaim(s, t) <==> t.read.value.epoch != t.claim && Applies(s.db, StartupStmt(t)))
            && (t.read.value.epoch == t.claim && Applies(s.db, StartupStmt(t)) ==>
                  s.db.row.epoch == t.claim && s.db.row.processor == Some(t.claimant))
  {
    TasksAlways(manifest, doc, steps);
    assert TaskInv(After(Init(manifest, doc), steps).db.row, After(Init(manifest, doc), steps).startupTasks[i]);
  }

  /** p claims its activated batch at startup; the reconciler requeues that claim and q
      dequeues the batch. */
  lemma LaterClaim(m: ManifestEntry, doc: StatusDoc, p: ProcessorId, q: ProcessorId) returns (s: Sys)
    requires Submitted(doc) && p != "" && q != "" && !m.rejected
    ensures Lifecycle.Reachable([m], doc, s) && OwnerFence(s.db, q, 4)
    ensures s.startupTasks == [StartupTask(p, 2, None, false)]
  {
    s := Manifest.OneLineActivated(m, doc, p);
    s := Lifecycle.ReachStep([m], doc, s, Job(Claims(p)));
    s := Lifecycle.ReachStep([m], doc, s, Issue(Requeue(p, 2, false, true)));
    s := Lifecycle.ReachStep([m], doc, s, Job(Dequeues(q, 300000)));
  }

  /** It does happen: p then reads the row back, and its requeue takes the batch from q
      under q's running lease. */
  lemma StartupRequeueDisplacesOwner(m: ManifestEntry, doc: StatusDoc, p: ProcessorId, q: ProcessorId)
    returns (s: Sys)
    requires Submitted(doc) && p != "" && q != "" && p != q && !m.rejected
    ensures Lifecycle.Reachable([m], doc, s) && OwnerFence(s.db, q, 4)
    ensures |s.startupTasks| == 1 && s.startupTasks[0].claimant == p && s.startupTasks[0].read.Some?
    ensures TakesFromLaterClaim(s, s.startupTasks[0])
    ensures Enabled(s, Job(StartupRequeue(0))) && Apply(s, Job(StartupRequeue(0))).db.row.processor.None?
  {
    s := LaterClaim(m, doc, p, q);
    s := Lifecycle.ReachStep([m], doc, s, Job(StartupRead(0)));
  }
}
