/** What holds of every run of statements with arbitrary arguments: any number of
    processors, zombies, reconcilers and API servers, at any epochs they please. */
module Ownership {
  import opened BatchTypes
  import opened Statements

  /** The database after the first k statements. */
  function At(db: Db, run: seq<Stmt>, k: nat): Db
    requires k <= |run|
  {
    if k == 0 then db else Exec(At(db, run, k - 1), run[k - 1])
  }

  predicate Took(db: Db, run: seq<Stmt>, k: nat)
    requires k < |run|
  {
    Applies(At(db, run, k), run[k])
  }

  /** Marks, checkpoints, renewals and finalizations. */
  predicate FencedWrite(s: Stmt) {
    s.Mark? || s.Checkpoint? || s.Renew? || s.Finalize?
  }

  /** Statements that hand the row to somebody, or to nobody. */
  predicate OwnershipChange(s: Stmt) {
    s.Dequeue? || s.ClaimOwned? || s.Enqueue? || s.Requeue? || s.DeleteQueued?
  }

  /** Statements whose WHERE clause names the epoch the caller read. */
  predicate CarriesEpoch(s: Stmt, e: nat) {
    match s
    case Enqueue(_, epoch, _) => epoch == e
    case Activate(_, epoch, _, _) => epoch == e
    case Renew(_, epoch, _) => epoch == e
    case Requeue(_, epoch, _, _) => epoch == e
    case Finalize(_, epoch, _, _) => epoch == e
    case Mark(_, epoch, _) => epoch == e
    case Checkpoint(_, epoch, _, _) => epoch == e
    case UpdateStatus(w) => w.epoch == e && (e > 0 || w.bump)
    case UpdateProgress(epoch, _) => epoch == e
    case _ => false
  }

  // ---- epochs ----

  lemma StepEpoch(db: Db, s: Stmt)
    ensures var n := Exec(db, s);
            && db.row.epoch <= n.row.epoch
            && db.now <= n.now
            && (n.row.epoch == db.row.epoch ==> n.row.processor == db.row.processor)
            && (OwnershipChange(s) && Applies(db, s) ==> n.row.epoch == db.row.epoch + 1)
  {}

  /** Epochs never fall, the clock never falls, and one epoch has one owner. */
  lemma {:induction false} EpochHistory(db: Db, run: seq<Stmt>, i: nat, j: nat)
    requires i <= j <= |run|
    ensures At(db, run, i).row.epoch <= At(db, run, j).row.epoch
    ensures At(db, run, i).now <= At(db, run, j).now
    ensures At(db, run, i).row.epoch == At(db, run, j).row.epoch ==>
              At(db, run, i).row.processor == At(db, run, j).row.processor
  {
    if i < j {
      EpochHistory(db, run, i, j - 1);
      StepEpoch(At(db, run, j - 1), run[j - 1]);
    }
  }

  lemma FencedWritesMatch(db: Db, s: Stmt)
    requires FencedWrite(s) && Applies(db, s)
    ensures db.row.epoch == s.epoch && db.row.processor == Some(s.pid)
  {}

  /** Fencing: the writes that took effect have non-decreasing epochs, and all
      those of one epoch come from one processor. */
  lemma FencingHistory(db: Db, run: seq<Stmt>, i: nat, j: nat)
    requires i <= j < |run|
    requires FencedWrite(run[i]) && Took(db, run, i)
    requires FencedWrite(run[j]) && Took(db, run, j)
    ensures run[i].epoch <= run[j].epoch
    ensures run[i].epoch == run[j].epoch ==> run[i].pid == run[j].pid
  {
    EpochHistory(db, run, i, j);
    FencedWritesMatch(At(db, run, i), run[i]);
    FencedWritesMatch(At(db, run, j), run[j]);
  }

  /** Nothing a displaced owner writes takes effect: after an ownership change,
      no statement carrying an epoch the row had before it ever applies. */
  lemma DisplacedNeverWrites(db: Db, run: seq<Stmt>, i: nat, k: nat, j: nat)
    requires i <= k < j < |run|
    requires OwnershipChange(run[k]) && Took(db, run, k)
    requires CarriesEpoch(run[j], At(db, run, i).row.epoch)
    ensures !Took(db, run, j)
    ensures At(db, run, j + 1) == At(db, run, j)
  {
    EpochHistory(db, run, i, k);
    StepEpoch(At(db, run, k), run[k]);
    EpochHistory(db, run, k + 1, j);
  }

  // ---- entries ----

  lemma StepEntries(db: Db, s: Stmt, i: nat)
    requires i < |db.entries|
    ensures var n := Exec(db, s);
            && |n.entries| == |db.entries|
            && SameIdentity(n.entries[i], db.entries[i])
            && (db.entries[i].Terminal() ==> n.entries[i] == db.entries[i])
            && db.entries[i].attempts <= n.entries[i].attempts
  {}

  /** Entry x of one database in a later one: the same request, and the same in every
      column if it was terminal. */
  ghost predicate Kept(a: Db, b: Db, x: nat) {
    && x < |a.entries| == |b.entries|
    && SameIdentity(b.entries[x], a.entries[x])
    && (a.entries[x].Terminal() ==> b.entries[x] == a.entries[x])
  }

  lemma KeptNext(a: Db, b: Db, s: Stmt, x: nat)
    requires Kept(a, b, x)
    ensures Kept(a, Exec(b, s), x)
  {
    StepEntries(b, s, x);
  }

  lemma {:induction false} KeptAlong(a: Db, db: Db, run: seq<Stmt>, i: nat, j: nat, x: nat)
    requires i <= j <= |run| && a == At(db, run, i) && x < |a.entries|
    ensures Kept(a, At(db, run, j), x)
  {
    if i < j {
      KeptAlong(a, db, run, i, j - 1, x);
      KeptNext(a, At(db, run, j - 1), run[j - 1], x);
    }
  }

  /** First result wins: once an entry is terminal, all of its columns are final. */
  lemma FirstResultWins(db: Db, run: seq<Stmt>, i: nat, j: nat, x: nat)
    requires i <= j <= |run|
    requires x < |At(db, run, i).entries|
    ensures |At(db, run, j).entries| == |At(db, run, i).entries|
    ensures SameIdentity(At(db, run, j).entries[x], At(db, run, i).entries[x])
    ensures At(db, run, i).entries[x].Terminal() ==> At(db, run, j).entries[x] == At(db, run, i).entries[x]
  {
    KeptAlong(At(db, run, i), db, run, i, j, x);
  }

  /** Activation happens at most once in any run. */
  lemma ActivatedOnce(db: Db, run: seq<Stmt>, i: nat, j: nat)
    requires i < j < |run|
    requires run[i].Activate? && Took(db, run, i) && run[j].Activate?
    ensures !Took(db, run, j)
  {
    FirstResultWins(db, run, i + 1, j, 0);
  }

  /** An entry's status changes only through a write of the epoch the row has,
      by the processor that holds it under an unexpired lease. */
  lemma EntriesChangeByOwner(db: Db, s: Stmt, x: nat)
    requires x < |db.entries|
    requires Exec(db, s).entries[x].status != db.entries[x].status
    ensures s.Mark? || s.Checkpoint?
    ensures s.epoch == db.row.epoch && db.row.processor == Some(s.pid)
    ensures db.row.lease.Some? && db.row.lease.value > db.now
    ensures db.entries[x].requestId == s.rid
  {}

  /** An in-flight entry was dispatched and names its submitter, so the requeue's
      submitter backfill finds nothing to do in any run from a fresh row. */
  ghost predicate SubmittersKnown(db: Db) {
    forall i :: 0 <= i < |db.entries| && db.entries[i].status == InFlight ==>
                  db.entries[i].attempts > 0 && db.entries[i].submittedBy.Some?
  }

  predicate SeedsOnlyPendingOrFailed(s: Stmt) {
    s.Activate? ==> forall i :: 0 <= i < |s.seed| ==> s.seed[i].status == Pending || s.seed[i].status == EntryFailed
  }

  lemma SubmittersStep(db: Db, s: Stmt)
    requires SubmittersKnown(db) && SeedsOnlyPendingOrFailed(s)
    ensures SubmittersKnown(Exec(db, s))
  {}

  lemma BackfillIdle(db: Db, pid: ProcessorId)
    requires SubmittersKnown(db)
    ensures Exec(db, RecordSubmitter(pid)).entries == db.entries
  {}

  lemma {:induction false} SubmittersAlwaysKnown(db: Db, run: seq<Stmt>, k: nat, pid: ProcessorId)
    requires k <= |run| && SubmittersKnown(db)
    requires forall i :: 0 <= i < |run| ==> SeedsOnlyPendingOrFailed(run[i])
    ensures SubmittersKnown(At(db, run, k))
    ensures Exec(At(db, run, k), RecordSubmitter(pid)).entries == At(db, run, k).entries
  {
    if k > 0 {
      SubmittersAlwaysKnown(db, run, k - 1, pid);
      SubmittersStep(At(db, run, k - 1), run[k - 1]);
    }
    BackfillIdle(At(db, run, k), pid);
  }

  // ---- row shape ----

  /** A lease is held exactly by the owner of an activated batch. */
  predicate LeaseShape(row: Row) {
    row.lease.Some? <==> row.resumable && row.processor.Some?
  }

  lemma {:induction false} LeaseShapeAlways(db: Db, run: seq<Stmt>, k: nat)
    requires k <= |run| && LeaseShape(db.row)
    ensures LeaseShape(At(db, run, k).row)
  {
    if k > 0 {
      LeaseShapeAlways(db, run, k - 1);
    }
  }

  // ---- leases ----

  /** The lease, while there is one, reaches at least to `until`. */
  predicate LeaseReaches(db: Db, until: nat) {
    |db.entries| > 0 && (db.row.lease.Some? ==> until <= db.row.lease.value)
  }

  lemma StepLease(db: Db, s: Stmt, until: nat)
    requires LeaseReaches(db, until)
    requires Exec(db, s).row.epoch == db.row.epoch
    requires s.Renew? ==> until <= db.now + Seconds(s.ttl)
    ensures LeaseReaches(Exec(db, s), until)
  {}

  ghost predicate RenewsTo(db: Db, run: seq<Stmt>, k: nat, until: nat)
    requires k < |run|
  {
    run[k].Renew? ==> until <= At(db, run, k).now + Seconds(run[k].ttl)
  }

  ghost predicate SameEpoch(db: Db, run: seq<Stmt>, k: nat, epoch: nat)
    requires k <= |run|
  {
    At(db, run, k).row.epoch == epoch
  }

  lemma {:induction false} LeaseLasts(db: Db, run: seq<Stmt>, i: nat, j: nat, epoch: nat, until: nat)
    requires i <= j <= |run| && LeaseReaches(At(db, run, i), until)
    requires forall k :: i <= k <= j ==> SameEpoch(db, run, k, epoch)
    requires forall k :: i <= k < j ==> RenewsTo(db, run, k, until)
    ensures LeaseReaches(At(db, run, j), until)
  {
    if i < j {
      LeaseLasts(db, run, i, j - 1, epoch, until);
      assert SameEpoch(db, run, j - 1, epoch) && SameEpoch(db, run, j, epoch) && RenewsTo(db, run, j - 1, until);
      StepLease(At(db, run, j - 1), run[j - 1], until);
    }
  }

  /** The lease of an activated batch shields its owner from the reconciler's
      wedged-owner requeue until the database clock passes it, as long as the
      owner's renewals are no shorter and nobody else takes the row. */
  lemma LeaseShields(db: Db, run: seq<Stmt>, i: nat, j: nat, until: nat)
    requires i <= j <= |run|
    requires LeaseReaches(At(db, run, i), until)
    requires forall k :: i <= k < j ==> RenewsTo(db, run, k, until)
    requires At(db, run, j).row.epoch == At(db, run, i).row.epoch
    requires At(db, run, j).now < until
    ensures LeaseReaches(At(db, run, j), until)
    ensures j < |run| && run[j].Requeue? && run[j].requireExpired ==> !Took(db, run, j)
  {
    var epoch := At(db, run, i).row.epoch;
    forall k | i <= k <= j ensures SameEpoch(db, run, k, epoch) {
      EpochHistory(db, run, i, k);
      EpochHistory(db, run, k, j);
    }
    LeaseLasts(db, run, i, j, epoch, until);
  }
}
