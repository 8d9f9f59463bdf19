/** The reconciler's triage of a row it read earlier: which fenced statement it issues,
    and what that statement can and cannot do by the time it runs. */
module Reconciler {
  import opened BatchTypes
  import opened Statements
  import Ownership
  import Lifecycle
  import BatchStore
  import System

  /** What one triage does: nothing, one of the fenced statements, or report an error. */
  datatype Decision = LeaveAlone | RequeueOwned | TerminateOrphan(target: BatchStatus) | ReEnqueue | NoPriority

  /** The decision from the row as it was read, the pod snapshot, the wall clock and
      the job's deadline. */
  function Decide(job: Row, alive: bool, wall: nat, sloExpired: bool, priority: int): Decision {
    if job.resumable then
      if alive && job.lease.Some? && job.lease.value > wall then LeaveAlone else RequeueOwned
    else if alive then LeaveAlone
    else if job.doc.status == Cancelling then TerminateOrphan(Cancelled)
    else if sloExpired then TerminateOrphan(Failed)
    else if priority <= 0 then NoPriority
    else ReEnqueue
  }

  /** The orphan's terminal document. */
  function OrphanDoc(job: Row, target: BatchStatus, since: nat): StatusDoc {
    job.doc.(status := target, since := since)
  }

  function OrphanWrite(job: Row, target: BatchStatus, since: nat): StatusWrite {
    System.OrphanWrite(System.ReadItem(job), OrphanDoc(job, target, since))
  }

  /** The database after the decision is carried out. */
  function Carried(db: Db, job: Row, d: Decision, alive: bool, since: nat): Db
    requires job.processor.Some?
  {
    match d
    case LeaveAlone => db
    case NoPriority => db
    case RequeueOwned =>
      var requeue := Requeue(job.processor.value, job.epoch, alive, true);
      if Applies(db, requeue) then Exec(Exec(db, requeue), RecordSubmitter(job.processor.value)) else db
    case TerminateOrphan(target) => Exec(db, UpdateStatus(OrphanWrite(job, target, since)))
    case ReEnqueue => Exec(db, Enqueue(job.processor.value, job.epoch, job.doc.status))
  }

  /** One triage, with whatever happens between the listing and the write. */
  method Triage(store: BatchStore.ResumableStore, job: Row, alive: bool, wall: nat, sloExpired: bool, priority: int,
                since: nat, race: seq<Stmt>)
    returns (d: Decision)
    requires job.processor.Some?
    modifies store
    ensures d == Decide(job, alive, wall, sloExpired, priority)
    ensures store.Snapshot() == Carried(Ownership.At(old(store.Snapshot()), race, |race|), job, d, alive, since)
  {
    store.Interleave(race);
    var owner := job.processor.value;
    if job.resumable {
      if alive && job.lease.Some? && job.lease.value > wall {
        return LeaveAlone;
      }
      store.RequeueResumableOrphan(owner, job.epoch, alive, true);
      return RequeueOwned;
    }
    if alive {
      return LeaveAlone;
    }
    if job.doc.status == Cancelling {
      var _ := store.DBUpdate(OrphanWrite(job, Cancelled, since));
      return TerminateOrphan(Cancelled);
    }
    if sloExpired {
      var _ := store.DBUpdate(OrphanWrite(job, Failed, since));
      return TerminateOrphan(Failed);
    }
    if priority <= 0 {
      return NoPriority;
    }
    var _ := store.PQEnqueue(owner, job.epoch, job.doc.status);
    return ReEnqueue;
  }

  /** A row read as owned and non-terminal, as the listing returns them. */
  predicate Listed(job: Row) {
    job.processor.Some? && !job.Terminal() && Ownership.LeaseShape(job)
  }

  /** Triage is harmless on stale reads: it changes the row only at the epoch it read,
      then always bumps the epoch, never terminates an activated batch, never displaces a
      processor it knows alive while that processor's lease runs, and leaves a row that
      was read as not activated alone altogether if its owner is alive. */
  lemma TriageIsFenced(db: Db, job: Row, alive: bool, wall: nat, sloExpired: bool, priority: int, since: nat)
    requires Listed(job) && Ownership.LeaseShape(db.row)
    ensures var n := Carried(db, job, Decide(job, alive, wall, sloExpired, priority), alive, since);
            && (db.row.epoch != job.epoch ==> n == db)
            && (n.row != db.row ==> n.row.epoch == db.row.epoch + 1)
            && (db.row.resumable ==> n.row.doc == db.row.doc && n.row.resumable)
            && (db.row.Terminal() ==> n == db)
            && (alive && db.row.lease.Some? && db.row.lease.value > db.now ==> n.row == db.row)
            && (alive && !job.resumable ==> n == db)
  {}

  /** On the row it read, triage takes an activated batch from an owner it knows alive if
      and only if the lease has lapsed by its own clock and by the database's. */
  lemma LiveOwnerDisplacedIff(db: Db, wall: nat, sloExpired: bool, priority: int, since: nat)
    requires Listed(db.row)
    ensures var n := Carried(db, db.row, Decide(db.row, true, wall, sloExpired, priority), true, since);
            var lapsed := db.row.resumable && db.row.lease.value <= wall && db.row.lease.value <= db.now;
            && (lapsed ==> n.row == db.row.(processor := None, lease := None, epoch := db.row.epoch + 1,
                                            attempts := db.row.attempts + 1))
            && (!lapsed ==> n == db)
  {}

  /** A row that triage cannot put back for want of a priority: it is not activated, not
      being cancelled, and its deadline has not passed. */
  predicate Unqueueable(row: Row, sloExpired: bool, priority: int) {
    !row.resumable && row.doc.status != Cancelling && !sloExpired && priority <= 0
  }

  /** And it is effective: on the row it read, triage takes the row from its dead owner, an
      activated one to the queue at the cost of an attempt, one being cancelled or past
      its deadline to a terminal status, and any other to the queue as validating; only a
      row without a priority is reported and left. */
  lemma TriageTakesOver(db: Db, wall: nat, sloExpired: bool, priority: int, since: nat)
    requires Listed(db.row) && db.row.processor != Some("")
    ensures var d := Decide(db.row, false, wall, sloExpired, priority);
            var n := Carried(db, db.row, d, false, since);
            var row, next := db.row, db.row.epoch + 1;
            && (d == NoPriority <==> Unqueueable(row, sloExpired, priority))
            && (d == NoPriority ==> n == db)
            && (row.resumable ==>
                  n.row == row.(processor := None, lease := None, epoch := next, attempts := row.attempts + 1))
            && (!row.resumable && row.doc.status == Cancelling ==>
                  n.row == row.(epoch := next, doc := row.doc.(status := Cancelled, since := since)))
            && (!row.resumable && row.doc.status != Cancelling && sloExpired ==>
                  n.row == row.(epoch := next, doc := row.doc.(status := Failed, since := since)))
            && (!row.resumable && row.doc.status != Cancelling && !sloExpired && priority > 0 ==>
                  n.row == row.(processor := None, epoch := next, doc := row.doc.(status := Validating)))
  {}

  lemma OrphanWriteForm(job: Row, target: BatchStatus, since: nat)
    requires Listed(job) && (target == Cancelled || target == Failed)
    ensures System.OrphanForm(OrphanWrite(job, target, since))
  {}

  /** The steps of the system model that a triage consists of. */
  function Steps(db: Db, job: Row, d: Decision, alive: bool, since: nat): seq<System.Step>
    requires job.processor.Some?
  {
    var owner := job.processor.value;
    match d
    case LeaveAlone => []
    case NoPriority => []
    case RequeueOwned =>
      var requeue := Requeue(owner, job.epoch, alive, true);
      if Applies(db, requeue) then [System.Issue(requeue), System.Issue(RecordSubmitter(owner))]
      else [System.Issue(requeue)]
    case TerminateOrphan(target) => [System.Orphans(System.ReadItem(job), OrphanDoc(job, target, since))]
    case ReEnqueue => [System.Issue(Enqueue(owner, job.epoch, job.doc.status))]
  }

  lemma OneStep(s: System.Sys, step: System.Step)
    requires System.Enabled(s, step)
    ensures System.After(s, [step]).db == Exec(s.db, System.StmtOf(s, step))
  {
    assert [step][..0] == [];
  }

  lemma TwoIssues(s: System.Sys, a: Stmt, b: Stmt)
    requires System.Issuable(a) && System.Issuable(b)
    ensures System.After(s, [System.Issue(a), System.Issue(b)]).db == Exec(Exec(s.db, a), b)
  {
    assert [System.Issue(a), System.Issue(b)][..1] == [System.Issue(a)];
    OneStep(s, System.Issue(a));
  }

  lemma RequeueIsARun(s: System.Sys, job: Row, alive: bool, since: nat)
    requires job.processor.Some?
    ensures System.After(s, Steps(s.db, job, RequeueOwned, alive, since)).db == Carried(s.db, job, RequeueOwned, alive, since)
  {
    var requeue := Requeue(job.processor.value, job.epoch, alive, true);
    if Applies(s.db, requeue) {
      TwoIssues(s, requeue, RecordSubmitter(job.processor.value));
    } else {
      OneStep(s, System.Issue(requeue));
    }
  }

  /** Triage is part of the system: on a row that was listed it does what a run of the
      system does, so every theorem about all runs covers it. */
  lemma TriageIsARun(s: System.Sys, job: Row, alive: bool, wall: nat, sloExpired: bool, priority: int, since: nat)
    requires Listed(job) && System.ReadItem(job) in s.listings
    ensures var d := Decide(job, alive, wall, sloExpired, priority);
            && System.After(s, Steps(s.db, job, d, alive, since)).db == Carried(s.db, job, d, alive, since)
            && (|Steps(s.db, job, d, alive, since)| > 0 ==> System.Enabled(s, Steps(s.db, job, d, alive, since)[0]))
  {
    var d := Decide(job, alive, wall, sloExpired, priority);
    if d.RequeueOwned? {
      RequeueIsARun(s, job, alive, since);
    } else if d.TerminateOrphan? {
      OrphanWriteForm(job, d.target, since);
      OneStep(s, System.Orphans(System.ReadItem(job), OrphanDoc(job, d.target, since)));
    } else if d.ReEnqueue? {
      OneStep(s, System.Issue(Enqueue(job.processor.value, job.epoch, job.doc.status)));
    }
  }
}
