/** The recovery budget: every requeue of an activated batch is paid for by its own
    increment of recovery_attempts, so at most three resumed pickups execute. */
module Budget {
  import opened BatchTypes
  import opened Statements
  import opened System
  import Lifecycle
  import Delivery

  predicate RunOk(r: JobRun, pickups: nat) {
    && (r.resumed ==> 1 <= r.pickup <= pickups)
    && (r.resumed && r.item.Some? ==> r.pickup <= r.item.value.attempts)
    && (r.executing ==> r.resumed && r.item.Some? && r.item.value.attempts <= MAX_RECOVERY_ATTEMPTS)
  }

  /** Pickups are numbered in the order they are claimed. */
  ghost predicate PickupsAscend(runs: seq<JobRun>) {
    forall r, q :: 0 <= r < q < |runs| && runs[r].resumed && runs[q].resumed ==> runs[r].pickup < runs[q].pickup
  }

  /** Startup claims that have not been handed back yet. */
  function Owed(tasks: seq<StartupTask>): nat {
    if |tasks| == 0 then 0 else Owed(tasks[..|tasks| - 1]) + if tasks[|tasks| - 1].done then 0 else 1
  }

  lemma {:induction false} OwedUpdate(tasks: seq<StartupTask>, i: nat, t: StartupTask)
    requires i < |tasks| && !tasks[i].done
    ensures Owed(tasks[i := t]) == Owed(tasks) - if t.done then 1 else 0
  {
    var last := |tasks| - 1;
    if i == last {
      assert tasks[i := t][..last] == tasks[..last];
    } else {
      assert tasks[i := t][..last] == tasks[..last][i := t];
      OwedUpdate(tasks[..last], i, t);
    }
  }

  lemma OwedAdds(tasks: seq<StartupTask>, t: StartupTask)
    requires !t.done
    ensures Owed(tasks + [t]) == Owed(tasks) + 1
  {
    assert (tasks + [t])[..|tasks|] == tasks;
  }

  /** What a job step adds to and takes from the startup claims. */
  lemma OwedAfter(s: Sys, j: JobStep)
    requires JobEnabled(s, j)
    ensures Owed(JobLocal(s, j).startupTasks) ==
            Owed(s.startupTasks) + (if j.Claims? && s.db.row.resumable then 1 else if j.StartupRequeue? then -1 else 0)
    ensures s.startupTasks == [] && !s.db.row.resumable ==> JobLocal(s, j).startupTasks == []
  {
    if j.Claims? && s.db.row.resumable {
      OwedAdds(s.startupTasks, StartupTask(j.pid, s.db.row.epoch + 1, None, false));
    } else if j.StartupRead? {
      OwedUpdate(s.startupTasks, j.task, s.startupTasks[j.task].(read := Some(ReadItem(s.db.row))));
    } else if j.StartupRequeue? {
      OwedUpdate(s.startupTasks, j.task, s.startupTasks[j.task].(done := true));
    }
  }

  /** Requeues done and requeues still owed to a startup claim, against the
      attempts counted; and one pickup per requeue that has been dequeued. */
  predicate Paid(s: Sys) {
    if |s.db.entries| == 0 then s.requeues == 0 && s.startupTasks == [] && s.pickups == 0
    else
      && s.requeues + Owed(s.startupTasks) <= s.db.row.attempts
      && s.pickups + (if s.db.row.processor.None? then 1 else 0) == s.requeues
  }

  ghost predicate BudgetInv(s: Sys) {
    && Lifecycle.RowInv(s.db)
    && Paid(s)
    && PickupsAscend(s.runs)
    && (forall r :: 0 <= r < |s.runs| ==> RunOk(s.runs[r], s.pickups))
  }

  /** The accounts of a statement: requeues, claims and pickups it adds. */
  lemma StmtPays(db: Db, stmt: Stmt)
    requires Lifecycle.RowInv(db) && Lifecycle.SystemForm(stmt)
    ensures var n := Exec(db, stmt);
            if |db.entries| == 0 then |n.entries| > 0 ==> stmt.Activate? && n.row.processor.Some?
            else
              && |n.entries| == |db.entries|
              && (n.row.attempts == db.row.attempts +
                    if Applies(db, stmt) && (stmt.ClaimOwned? || (stmt.Requeue? && stmt.bump)) then 1 else 0)
              && (Applies(db, stmt) && stmt.Requeue? ==> db.row.processor.Some? && n.row.processor.None?)
              && (Applies(db, stmt) && stmt.Dequeue? ==>
                    db.row.resumable && db.row.processor.None? && n.row.processor.Some?)
              && (!(Applies(db, stmt) && (stmt.Requeue? || stmt.Dequeue?)) ==> n.row.processor == db.row.processor)
  {}

  lemma NothingOwedBeforeActivation(db: Db, stmt: Stmt)
    requires Lifecycle.RowInv(db) && |db.entries| == 0
    ensures !(stmt.Requeue? && Applies(db, stmt))
    ensures !db.row.resumable
  {}

  /** A step that is no job step keeps the runs and the startup tasks, and requeues only
      through a reconciler's requeue. */
  lemma PlainStepFrame(s: Sys, step: Step)
    requires Enabled(s, step) && !step.Job?
    ensures var n := Local(s, step);
            && n.runs == s.runs && n.startupTasks == s.startupTasks && n.pickups == s.pickups
            && n.requeues == s.requeues + if StmtOf(s, step).Requeue? && Applies(s.db, StmtOf(s, step)) then 1 else 0
    ensures var stmt := StmtOf(s, step); !stmt.Activate? && !stmt.Dequeue? && !stmt.ClaimOwned? && (stmt.Requeue? ==> stmt.bump)
  {}

  lemma PlainStepPays(s: Sys, step: Step)
    requires BudgetInv(s) && Enabled(s, step) && !step.Job?
    ensures BudgetInv(Apply(s, step))
  {
    var stmt := StmtOf(s, step);
    PlainStepFrame(s, step);
    Lifecycle.StepForm(s, step);
    Lifecycle.RowStep(s.db, stmt);
    StmtPays(s.db, stmt);
    if |s.db.entries| == 0 {
      NothingOwedBeforeActivation(s.db, stmt);
    }
  }

  lemma JobStepPays(s: Sys, j: JobStep)
    requires BudgetInv(s) && JobEnabled(s, j)
    ensures Paid(Apply(s, Job(j)))
  {
    var stmt := JobStmt(s, j);
    Lifecycle.StepForm(s, Job(j));
    StmtPays(s.db, stmt);
    OwedAfter(s, j);
    if |s.db.entries| == 0 {
      NothingOwedBeforeActivation(s.db, stmt);
    }
  }

  /** What a run reads as attempts covers its own pickup number. */
  lemma ReadCoversPickup(s: Sys, r: nat)
    requires BudgetInv(s) && r < |s.runs| && s.runs[r].resumed
    ensures s.runs[r].pickup <= s.db.row.attempts
  {
    assert RunOk(s.runs[r], s.pickups);
  }

  lemma RunStaysOk(s: Sys, j: JobStep, r: nat)
    requires BudgetInv(s) && JobEnabled(s, j) && r < |JobLocal(s, j).runs|
    ensures RunOk(JobLocal(s, j).runs[r], JobLocal(s, j).pickups)
  {
    if r < |s.runs| {
      assert RunOk(s.runs[r], s.pickups);
      if j.Fetch? && s.runs[j.run].resumed {
        ReadCoversPickup(s, j.run);
      }
    }
  }

  /** A step keeps the pickups of the runs there were, and numbers a new one next. */
  lemma PickupsKept(s: Sys, j: JobStep)
    requires JobEnabled(s, j)
    ensures var t := JobLocal(s, j);
            && |s.runs| <= |t.runs| <= |s.runs| + 1
            && (forall r :: 0 <= r < |s.runs| ==>
                  t.runs[r].resumed == s.runs[r].resumed && t.runs[r].pickup == s.runs[r].pickup)
            && (|t.runs| > |s.runs| && t.runs[|s.runs|].resumed ==> t.runs[|s.runs|].pickup > s.pickups)
  {}

  lemma PickupsStayAscending(s: Sys, j: JobStep)
    requires BudgetInv(s) && JobEnabled(s, j)
    ensures PickupsAscend(JobLocal(s, j).runs)
  {
    PickupsKept(s, j);
    var runs := JobLocal(s, j).runs;
    forall r, q | 0 <= r < q < |runs| && runs[r].resumed && runs[q].resumed ensures runs[r].pickup < runs[q].pickup {
      assert RunOk(s.runs[r], s.pickups);
    }
  }

  lemma StepPays(s: Sys, step: Step)
    requires BudgetInv(s) && Enabled(s, step)
    ensures BudgetInv(Apply(s, step))
  {
    if step.Job? {
      Lifecycle.StepForm(s, step);
      Lifecycle.RowStep(s.db, StmtOf(s, step));
      JobStepPays(s, step.job);
      PickupsStayAscending(s, step.job);
      forall r | 0 <= r < |JobLocal(s, step.job).runs|
        ensures RunOk(JobLocal(s, step.job).runs[r], JobLocal(s, step.job).pickups)
      {
        RunStaysOk(s, step.job, r);
      }
    } else {
      PlainStepPays(s, step);
    }
  }

  lemma {:induction false} BudgetAlways(manifest: seq<ManifestEntry>, doc: StatusDoc, steps: seq<Step>)
    ensures BudgetInv(After(Init(manifest, doc), steps))
  {
    if |steps| > 0 {
      BudgetAlways(manifest, doc, steps[..|steps| - 1]);
      var s := After(Init(manifest, doc), steps[..|steps| - 1]);
      if Enabled(s, steps[|steps| - 1]) {
        StepPays(s, steps[|steps| - 1]);
      }
    }
  }

  function Executing(runs: seq<JobRun>): nat {
    if |runs| == 0 then 0
    else Executing(runs[..|runs| - 1]) + if runs[|runs| - 1].executing then 1 else 0
  }

  lemma {:induction false} ExecutingBounded(runs: seq<JobRun>, bound: nat)
    requires PickupsAscend(runs)
    requires forall r :: 0 <= r < |runs| && runs[r].executing ==> runs[r].resumed && 1 <= runs[r].pickup <= bound
    ensures Executing(runs) <= bound
  {
    if |runs| > 0 {
      var last := runs[|runs| - 1];
      if last.executing {
        ExecutingBounded(runs[..|runs| - 1], last.pickup - 1);
      } else {
        ExecutingBounded(runs[..|runs| - 1], bound);
      }
    }
  }

  /** A resumed pickup that has read its row. */
  predicate PickedUp(r: JobRun) {
    r.resumed && r.item.Some?
  }

  /** Routed to a terminal status instead of executing: as cancelled if a cancel is under
      way, else as expired if past the deadline, else as failed. */
  predicate RoutedAway(item: Item, expired: bool) {
    RoutePickup(item, expired) ==
    Some(if item.doc.status == Cancelling then Cancelled else if expired then Expired else Failed)
  }

  /** Whether a resumed pickup executes: no cancel is under way, the deadline has not
      passed, and it is at most the third recovery. */
  predicate WithinBudget(item: Item, expired: bool) {
    item.doc.status != Cancelling && !expired && item.attempts <= 3
  }

  /** A resumed pickup that has read its row executes if and only if it is within the
      budget, and is otherwise routed to a terminal status. */
  lemma ExecutesIff(s: Sys, r: nat, expired: bool)
    requires r < |s.runs| && PickedUp(s.runs[r])
    ensures var item := s.runs[r].item.value;
            && (Enabled(s, Job(Executes(r, expired))) <==> WithinBudget(item, expired))
            && (WithinBudget(item, expired) ==> Apply(s, Job(Executes(r, expired))).runs[r].executing)
            && (!WithinBudget(item, expired) ==> RoutedAway(item, expired))
  {}

  /** At most three resumed pickups of a batch ever execute, and every later pickup is
      routed to a terminal finalization. */
  lemma RecoveryBudget(manifest: seq<ManifestEntry>, doc: StatusDoc, steps: seq<Step>)
    ensures var s := After(Init(manifest, doc), steps);
            && Executing(s.runs) <= 3
            && (forall r, expired :: 0 <= r < |s.runs| && PickedUp(s.runs[r]) && s.runs[r].pickup > 3 ==>
                                       RoutedAway(s.runs[r].item.value, expired))
  {
    BudgetAlways(manifest, doc, steps);
    var s := After(Init(manifest, doc), steps);
    forall r | 0 <= r < |s.runs| && s.runs[r].executing
      ensures s.runs[r].resumed && 1 <= s.runs[r].pickup <= 3
    {
      assert RunOk(s.runs[r], s.pickups);
    }
    ExecutingBounded(s.runs, 3);
    forall r, expired | 0 <= r < |s.runs| && PickedUp(s.runs[r]) && s.runs[r].pickup > 3
      ensures RoutedAway(s.runs[r].item.value, expired)
    {
      assert RunOk(s.runs[r], s.pickups);
      ExecutesIff(s, r, expired);
    }
  }

  // ---- where the budget starts ----

  /** A run never outranks the row, reads its own claim unless it is stale, and, if it came
      fresh from the queue, finds a full budget as long as the row is at its claim. */
  predicate QueueOk(row: Row, r: JobRun) {
    && r.claim <= row.epoch
    && (r.item.Some? && !r.stale ==> r.item.value.epoch == r.claim)
    && (r.origin == FromQueue && !r.resumed && r.claim == row.epoch ==> row.attempts == 0)
  }

  ghost predicate QueueInv(s: Sys) {
    forall r :: 0 <= r < |s.runs| ==> QueueOk(s.db.row, s.runs[r])
  }

  /** Attempts change only together with the epoch, and a dequeue of a row that is not
      activated clears them. */
  lemma AttemptsStep(db: Db, stmt: Stmt)
    ensures var n := Exec(db, stmt).row;
            && db.row.epoch <= n.epoch
            && (n.attempts != db.row.attempts ==> n.epoch > db.row.epoch)
            && (stmt.Dequeue? && Applies(db, stmt) ==> n.epoch == db.row.epoch + 1 && (!db.row.resumable ==> n.attempts == 0))
            && (stmt.ClaimOwned? && Applies(db, stmt) ==> n.epoch == db.row.epoch + 1)
  {}

  lemma QueueJobStep(s: Sys, j: JobStep, r: nat)
    requires QueueInv(s) && JobEnabled(s, j) && r < |JobLocal(s, j).runs|
    ensures QueueOk(Exec(s.db, JobStmt(s, j)).row, JobLocal(s, j).runs[r])
  {
    AttemptsStep(s.db, JobStmt(s, j));
    if r < |s.runs| {
      assert QueueOk(s.db.row, s.runs[r]);
    }
  }

  lemma QueueStep(s: Sys, step: Step)
    requires QueueInv(s) && Enabled(s, step)
    ensures QueueInv(Apply(s, step))
  {
    var n := Apply(s, step);
    forall r | 0 <= r < |n.runs| ensures QueueOk(n.db.row, n.runs[r]) {
      if step.Job? {
        QueueJobStep(s, step.job, r);
      } else {
        PlainStepFrame(s, step);
        AttemptsStep(s.db, StmtOf(s, step));
        assert QueueOk(s.db.row, s.runs[r]);
      }
    }
  }

  lemma {:induction false} QueueAlways(manifest: seq<ManifestEntry>, doc: StatusDoc, steps: seq<Step>)
    ensures QueueInv(After(Init(manifest, doc), steps))
  {
    if |steps| > 0 {
      QueueAlways(manifest, doc, steps[..|steps| - 1]);
      var s := After(Init(manifest, doc), steps[..|steps| - 1]);
      if Enabled(s, steps[|steps| - 1]) {
        QueueStep(s, steps[|steps| - 1]);
      }
    }
  }

  /** A run that came from the queue with a row not activated before, at its own claim. */
  predicate FreshAtClaim(row: Row, r: JobRun) {
    r.origin == FromQueue && !r.resumed && r.claim == row.epoch
  }

  /** Whatever claims came before, a fresh dequeue starts a full budget: in every reachable
      state the attempts are zero right after it, and as long as the row is at its claim. */
  lemma FullBudget(manifest: seq<ManifestEntry>, doc: StatusDoc, steps: seq<Step>)
    ensures var s := After(Init(manifest, doc), steps);
            && (forall pid, ttl :: Applies(s.db, Dequeue(pid, ttl)) && !s.db.row.resumable ==>
                                     Apply(s, Job(Dequeues(pid, ttl))).db.row.attempts == 0)
            && (forall r :: 0 <= r < |s.runs| && FreshAtClaim(s.db.row, s.runs[r]) ==> s.db.row.attempts == 0)
  {
    QueueAlways(manifest, doc, steps);
  }

  /** So a run that read the row it claimed activates the batch with nothing spent. */
  lemma ActivatesWithFullBudget(manifest: seq<ManifestEntry>, doc: StatusDoc, steps: seq<Step>, r: nat, ttl: int)
    requires var s := After(Init(manifest, doc), steps);
             && JobEnabled(s, Activates(r, ttl)) && Applies(s.db, JobStmt(s, Activates(r, ttl)))
             && !s.runs[r].stale
    ensures var n := Apply(After(Init(manifest, doc), steps), Job(Activates(r, ttl))).db.row;
            n.resumable && n.attempts == 0
  {
    QueueAlways(manifest, doc, steps);
    assert QueueOk(After(Init(manifest, doc), steps).db.row, After(Init(manifest, doc), steps).runs[r]);
  }

  // ---- and it can be spent ----

  /** A batch of one line, activated and running, after n executed recoveries. */
  ghost predicate Recovered(m: ManifestEntry, doc: StatusDoc, s: Sys, p: ProcessorId, n: nat) {
    && Lifecycle.Reachable([m], doc, s)
    && s.db.row.processor == Some(p) && s.db.row.attempts == n && s.db.row.resumable
    && s.db.row.doc.status == InProgress && Executing(s.runs) == n
  }

  lemma HandedBack(m: ManifestEntry, doc: StatusDoc, before: Sys, p: ProcessorId, n: nat) returns (s: Sys)
    requires Recovered(m, doc, before, p, n)
    ensures Lifecycle.Reachable([m], doc, s) && s.runs == before.runs
    ensures s.db.row == before.db.row.(processor := None, lease := None, epoch := before.db.row.epoch + 1, attempts := n + 1)
  {
    s := Lifecycle.ReachStep([m], doc, before, Issue(Requeue(p, before.db.row.epoch, false, true)));
  }

  lemma PicksUp(m: ManifestEntry, doc: StatusDoc, before: Sys, p: ProcessorId, n: nat) returns (s: Sys)
    requires Recovered(m, doc, before, p, n) && p != "" && n < 3
    ensures Lifecycle.Reachable([m], doc, s) && |s.runs| == |before.runs| + 1 && s.runs[..|before.runs|] == before.runs
    ensures s.db.row.processor == Some(p) && s.db.row.attempts == n + 1 && s.db.row.resumable
    ensures s.db.row.doc.status == InProgress
    ensures var r := s.runs[|before.runs|]; PickedUp(r) && !r.executing && WithinBudget(r.item.value, false)
  {
    var r := |before.runs|;
    s := HandedBack(m, doc, before, p, n);
    s := Lifecycle.ReachStep([m], doc, s, Job(Dequeues(p, 300000)));
    assert |s.runs| == r + 1 && s.runs[..r] == before.runs;
    s := Lifecycle.ReachStep([m], doc, s, Job(Fetch(r)));
    assert s.runs[..r] == before.runs;
  }

  /** The reconciler hands the batch back, p picks it up, reads it and executes. */
  lemma Recovers(m: ManifestEntry, doc: StatusDoc, before: Sys, p: ProcessorId, n: nat) returns (s: Sys)
    requires Recovered(m, doc, before, p, n) && p != "" && n < 3
    ensures Recovered(m, doc, s, p, n + 1)
  {
    var r := |before.runs|;
    s := PicksUp(m, doc, before, p, n);
    ExecutesIff(s, r, false);
    s := Lifecycle.ReachStep([m], doc, s, Job(Executes(r, false)));
    assert s.runs[..r] == before.runs;
  }

  lemma Activated(m: ManifestEntry, doc: StatusDoc, p: ProcessorId) returns (s: Sys)
    requires Submitted(doc) && p != "" && !m.rejected
    ensures Recovered(m, doc, s, p, 0)
  {
    Lifecycle.ReachInit([m], doc);
    s := Init([m], doc);
    s := Lifecycle.ReachStep([m], doc, s, Job(Dequeues(p, 300000)));
    s := Lifecycle.ReachStep([m], doc, s, Job(Fetch(0)));
    s := Lifecycle.ReachStep([m], doc, s, Job(Activates(0, 300000)));
    assert s.runs[..0] == [];
  }

  /** The bound is tight: a run in which three resumed pickups execute. */
  lemma ThreeRecoveriesExecute(m: ManifestEntry, doc: StatusDoc, p: ProcessorId) returns (s: Sys)
    requires Submitted(doc) && p != "" && !m.rejected
    ensures Lifecycle.Reachable([m], doc, s) && Executing(s.runs) == 3
  {
    s := Activated(m, doc, p);
    s := Recovers(m, doc, s, p, 0);
    s := Recovers(m, doc, s, p, 1);
    s := Recovers(m, doc, s, p, 2);
  }
}
