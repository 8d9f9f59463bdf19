/** The API server's cancel of a batch that left the queue: a compare-and-swap with a
    bounded retry, and when it can strand a row that nobody will pick up. */
module Cancel {
  import opened BatchTypes
  import opened Statements
  import opened System
  import Ownership
  import Lifecycle
  import BatchStore

  const MAX_ATTEMPTS: nat := 3

  /** The row as the handler read it. */
  datatype Read = Read(doc: StatusDoc, epoch: nat, resumable: bool)

  datatype CancelResult = Marked | Conflicted

  function CancelWrite(item: Read, since: nat): StatusWrite {
    StatusWrite(item.doc.(status := Cancelling, since := since), item.epoch, false, Some(item.doc), Some(item.resumable))
  }

  /** What other actors do before each write and before each read back. */
  datatype Interference = Interference(beforeWrite: seq<Stmt>, beforeRead: seq<Stmt>)

  /** One attempt: what had been read, and the database at the write. */
  datatype Try = Try(item: Read, met: Db)

  /** The row at the write is still as it was read: the same document and flag, and the
      same epoch unless it was zero. */
  predicate AsRead(row: Row, item: Read) {
    row.doc == item.doc && row.resumable == item.resumable && (item.epoch == 0 || row.epoch == item.epoch)
  }

  function Raced(db: Db, others: seq<Stmt>): Db {
    Ownership.At(db, others, |others|)
  }

  /** The database when attempt k + 1 reads it back. */
  function ReadBack(t: Try, others: Interference): Db {
    Raced(t.met, others.beforeRead)
  }

  predicate Retriable(db: Db, first: Read) {
    db.row.epoch == first.epoch && db.row.doc.status == first.doc.status
  }

  /** The attempts follow one another: the first on what the handler had read, each later
      one on the row as read back, still at the same epoch and status. */
  ghost predicate Attempts(start: Db, first: Read, tries: seq<Try>, others: seq<Interference>) {
    && 1 <= |tries| <= 3 <= |others|
    && tries[0] == Try(first, Raced(start, others[0].beforeWrite))
    && forall k :: 0 <= k < |tries| - 1 ==> Follows(first, tries[k], tries[k + 1], others[k], others[k + 1].beforeWrite)
  }

  predicate Follows(first: Read, t: Try, next: Try, others: Interference, beforeWrite: seq<Stmt>) {
    var db := ReadBack(t, others);
    && !AsRead(t.met.row, t.item) && Retriable(db, first)
    && next == Try(Read(db.row.doc, db.row.epoch, db.row.resumable), Raced(db, beforeWrite))
  }

  lemma AttemptsExtend(start: Db, first: Read, tries: seq<Try>, others: seq<Interference>, next: Try)
    requires Attempts(start, first, tries, others) && |tries| < 3
    requires Follows(first, tries[|tries| - 1], next, others[|tries| - 1], others[|tries|].beforeWrite)
    ensures Attempts(start, first, tries + [next], others)
  {}

  /** The compare-and-swap: it takes if and only if the row is as read. */
  method WriteCancelling(store: BatchStore.ResumableStore, item: Read, since: nat) returns (ok: bool)
    modifies store
    ensures ok <==> AsRead(old(store.Snapshot()).row, item)
    ensures var met := old(store.Snapshot());
            store.Snapshot() ==
            if ok then met.(row := met.row.(doc := item.doc.(status := Cancelling, since := since))) else met
  {
    var updated := store.DBUpdate(CancelWrite(item, since));
    ok := updated == BatchStore.Done;
  }

  /** The row as read back after others were at work. */
  method ReadRow(store: BatchStore.ResumableStore, others: seq<Stmt>) returns (item: Read)
    modifies store
    ensures store.Snapshot() == Raced(old(store.Snapshot()), others)
    ensures item == Read(store.doc, store.epoch, store.resumable)
  {
    store.Interleave(others);
    item := Read(store.doc, store.epoch, store.resumable);
  }

  /** The retry loop. It succeeds if and only if the row is as last read at the instant of
      a write, and then changes its status alone; it gives up only after three attempts or
      on a row whose status or epoch changed, and then has changed nothing at all. */
  method MarkCancelling(store: BatchStore.ResumableStore, first: Read, since: nat, others: seq<Interference>)
    returns (r: CancelResult, ghost tries: seq<Try>)
    requires |others| == MAX_ATTEMPTS
    modifies store
    ensures Attempts(old(store.Snapshot()), first, tries, others)
    ensures var last := tries[|tries| - 1];
            && (r == Marked <==> AsRead(last.met.row, last.item))
            && last.item.epoch == first.epoch && last.item.doc.status == first.doc.status
            && (r == Marked ==>
                  store.Snapshot() ==
                  last.met.(row := last.met.row.(doc := last.item.doc.(status := Cancelling, since := since))))
            && (r == Conflicted && |tries| == 3 ==> store.Snapshot() == last.met)
            && (r == Conflicted && |tries| < 3 ==>
                  store.Snapshot() == ReadBack(last, others[|tries| - 1]) && !Retriable(store.Snapshot(), first))
  {
    var current := first;
    store.Interleave(others[0].beforeWrite);
    tries := [Try(first, store.Snapshot())];
    var attempt := 1;
    while true
      invariant 1 <= attempt == |tries| <= MAX_ATTEMPTS
      invariant Attempts(old(store.Snapshot()), first, tries, others)
      invariant tries[attempt - 1] == Try(current, store.Snapshot())
      invariant current.epoch == first.epoch && current.doc.status == first.doc.status
      decreases MAX_ATTEMPTS - attempt
    {
      var ok := WriteCancelling(store, current, since);
      if ok {
        return Marked, tries;
      }
      if attempt == MAX_ATTEMPTS {
        return Conflicted, tries;
      }
      var epoch := current.epoch;
      current := ReadRow(store, others[attempt - 1].beforeRead);
      if current.epoch != epoch || current.doc.status != first.doc.status {
        return Conflicted, tries;
      }
      store.Interleave(others[attempt].beforeWrite);
      AttemptsExtend(old(store.Snapshot()), first, tries, others, Try(current, store.Snapshot()));
      tries := tries + [Try(current, store.Snapshot())];
      attempt := attempt + 1;
    }
  }

  /** The cancel handler's two statements are steps of the system: the removal from the
      queue always, and the write for a batch it read as cancellable. */
  lemma HandlerIsARun(s: Sys, item: Read, since: nat)
    requires item.doc.status == Validating || item.doc.status == InProgress
    ensures Enabled(s, Issue(DeleteQueued)) && Apply(s, Issue(DeleteQueued)).db == Exec(s.db, DeleteQueued)
    ensures var mark := UpdateStatus(CancelWrite(item, since));
            Enabled(s, Issue(mark)) && Apply(s, Issue(mark)).db == Exec(s.db, mark)
  {}

  // ---- stranded rows ----

  /** Cancelling, owned by nobody, never activated. */
  predicate Stranded(row: Row) {
    row.doc.status == Cancelling && row.processor.None? && !row.resumable
  }

  /** What the reconciler listed was owned, and is still owned by the same processor if
      the row is still at that epoch. */
  ghost predicate ListingsInv(s: Sys) {
    forall x :: x in s.listings ==>
      x.processor.Some? && x.epoch <= s.db.row.epoch && (x.epoch == s.db.row.epoch ==> s.db.row.processor == x.processor)
  }

  lemma ListingsStep(s: Sys, step: Step)
    requires ListingsInv(s) && Enabled(s, step)
    ensures ListingsInv(Apply(s, step))
  {
    Ownership.StepEpoch(s.db, StmtOf(s, step));
    if step.Job? {
      assert Apply(s, step).listings == s.listings;
    }
  }

  lemma {:induction false} ListingsAlways(manifest: seq<ManifestEntry>, doc: StatusDoc, steps: seq<Step>)
    ensures ListingsInv(After(Init(manifest, doc), steps))
  {
    if |steps| > 0 {
      ListingsAlways(manifest, doc, steps[..|steps| - 1]);
      var s := After(Init(manifest, doc), steps[..|steps| - 1]);
      if Enabled(s, steps[|steps| - 1]) {
        ListingsStep(s, steps[|steps| - 1]);
      }
    }
  }

  /** A plain terminal write of some run that takes effect. */
  predicate PlainWrites(s: Sys, step: Step) {
    && step.Job? && (step.job.LegacyWrite? || step.job.LegacyFail?)
    && Enabled(s, step) && Applies(s.db, StmtOf(s, step))
  }

  /** Exactly what ends it: nothing but a plain write at the row's epoch. */
  lemma StrandedStep(s: Sys, step: Step)
    requires Stranded(s.db.row) && ListingsInv(s) && Enabled(s, step)
    ensures !Stranded(Apply(s, step).db.row) <==> PlainWrites(s, step)
    ensures Lifecycle.Works(StmtOf(s, step)) && !StmtOf(s, step).UpdateProgress? ==> !Applies(s.db, StmtOf(s, step))
  {
    Lifecycle.StepForm(s, step);
  }

  /** Nobody works on a stranded row: over every run it stays stranded until a plain write
      at its epoch, and until then no claim, queue removal, re-enqueue, activation, mark,
      checkpoint, renewal, requeue or finalization takes effect on it. */
  lemma {:induction false} StrandedForGood(manifest: seq<ManifestEntry>, doc: StatusDoc, steps: seq<Step>, k: nat)
    requires k <= |steps| && Stranded(After(Init(manifest, doc), steps[..k]).db.row)
    requires forall j :: k <= j < |steps| ==> !PlainWrites(After(Init(manifest, doc), steps[..j]), steps[j])
    ensures var s := After(Init(manifest, doc), steps);
            && Stranded(s.db.row)
            && forall step :: Enabled(s, step) && Lifecycle.Works(StmtOf(s, step)) && !StmtOf(s, step).UpdateProgress? ==>
                 !Applies(s.db, StmtOf(s, step))
    decreases |steps|
  {
    var s := After(Init(manifest, doc), steps);
    if k == |steps| {
      assert steps[..k] == steps;
    } else {
      var front, last := steps[..|steps| - 1], steps[|steps| - 1];
      assert front[..k] == steps[..k];
      forall j | k <= j < |front| ensures !PlainWrites(After(Init(manifest, doc), front[..j]), front[j]) {
        assert front[..j] == steps[..j];
      }
      StrandedForGood(manifest, doc, front, k);
      ListingsAlways(manifest, doc, front);
      if Enabled(After(Init(manifest, doc), front), last) {
        StrandedStep(After(Init(manifest, doc), front), last);
      }
    }
    ListingsAlways(manifest, doc, steps);
    forall step | Enabled(s, step) && Lifecycle.Works(StmtOf(s, step)) && !StmtOf(s, step).UpdateProgress?
      ensures !Applies(s.db, StmtOf(s, step))
    {
      StrandedStep(s, step);
    }
  }

  /** The statuses of running batches occur on activated rows only. */
  predicate RunningIsActivated(row: Row) {
    row.doc.status == InProgress ==> row.resumable
  }

  lemma RunningStep(db: Db, s: Stmt)
    requires Lifecycle.SystemForm(s) && RunningIsActivated(db.row)
    ensures RunningIsActivated(Exec(db, s).row)
  {}

  /** Exactly when a cancel strands a row: when, at the instant of its write, the row is
      back in the queue, so that the queue removal would have cancelled it. */
  lemma StrandsIffQueued(db: Db, w: StatusWrite)
    requires CancelForm(w) && Applies(db, UpdateStatus(w)) && RunningIsActivated(db.row)
    ensures Stranded(Exec(db, UpdateStatus(w)).row) <==> Applies(db, DeleteQueued)
  {}

  /** Past epoch e, or at it and not in the queue: owned, activated or not validating. */
  predicate OutOfQueue(row: Row, e: nat) {
    row.epoch > e || (row.epoch == e && (row.processor.Some? || row.resumable || row.doc.status != Validating))
  }

  /** Past epoch e, or at it and never claimed nor activated. */
  predicate Unclaimed(row: Row, e: nat) {
    row.epoch > e || (row.epoch == e && row.processor.None? && !row.resumable)
  }

  /** Within an epoch a row neither returns to the queue nor leaves it for an owner. */
  lemma WithinEpoch(db: Db, s: Stmt, e: nat)
    requires Lifecycle.SystemForm(s)
    ensures OutOfQueue(db.row, e) ==> OutOfQueue(Exec(db, s).row, e)
    ensures Unclaimed(db.row, e) ==> Unclaimed(Exec(db, s).row, e)
  {}

  ghost predicate Formed(run: seq<Stmt>) {
    forall x :: 0 <= x < |run| ==> Lifecycle.SystemForm(run[x])
  }

  lemma {:induction false} WithinEpochRun(db: Db, run: seq<Stmt>, i: nat, k: nat, e: nat)
    requires i <= k <= |run| && Formed(run)
    ensures OutOfQueue(Ownership.At(db, run, i).row, e) ==> OutOfQueue(Ownership.At(db, run, k).row, e)
    ensures Unclaimed(Ownership.At(db, run, i).row, e) ==> Unclaimed(Ownership.At(db, run, k).row, e)
  {
    if i < k {
      WithinEpochRun(db, run, i, k - 1, e);
      WithinEpoch(Ownership.At(db, run, k - 1), run[k - 1], e);
    }
  }

  lemma {:induction false} RunningRun(db: Db, run: seq<Stmt>, k: nat)
    requires k <= |run| && RunningIsActivated(db.row)
    requires Formed(run)
    ensures RunningIsActivated(Ownership.At(db, run, k).row)
  {
    if k > 0 {
      RunningRun(db, run, k - 1);
      RunningStep(Ownership.At(db, run, k - 1), run[k - 1]);
    }
  }

  /** A cancel fenced on a positive epoch strands the row if and only if the row was in
      the queue when the handler read it, whatever happened in between and whatever the
      queue removal reported: the handler can tell from the row it holds. */
  lemma FencedCancelStrandsIff(db: Db, run: seq<Stmt>, w: StatusWrite)
    requires Formed(run) && RunningIsActivated(db.row)
    requires CancelForm(w) && w.epoch > 0 && w.epoch == db.row.epoch
    requires Applies(Ownership.At(db, run, |run|), UpdateStatus(w))
    ensures Stranded(Exec(Ownership.At(db, run, |run|), UpdateStatus(w)).row) <==> Applies(db, DeleteQueued)
  {
    RunningRun(db, run, |run|);
    WithinEpochRun(db, run, 0, |run|, w.epoch);
    WriteWithinEpoch(Ownership.At(db, run, |run|), w);
  }

  lemma WriteWithinEpoch(db: Db, w: StatusWrite)
    requires CancelForm(w) && Applies(db, UpdateStatus(w)) && RunningIsActivated(db.row) && w.epoch > 0
    ensures OutOfQueue(db.row, w.epoch) ==> !Stranded(Exec(db, UpdateStatus(w)).row)
    ensures Unclaimed(db.row, w.epoch) ==> Stranded(Exec(db, UpdateStatus(w)).row)
  {}

  /** In particular it strands nothing if the queue removal looked at the row meanwhile
      and truthfully missed it. */
  lemma FencedCancelStrandsNothing(db: Db, run: seq<Stmt>, j: nat, w: StatusWrite)
    requires j <= |run| && Formed(run) && RunningIsActivated(db.row)
    requires CancelForm(w) && w.epoch > 0 && w.epoch == db.row.epoch
    requires !Applies(Ownership.At(db, run, j), DeleteQueued)
    requires Applies(Ownership.At(db, run, |run|), UpdateStatus(w))
    ensures !Stranded(Exec(Ownership.At(db, run, |run|), UpdateStatus(w)).row)
  {
    RunningRun(db, run, |run|);
    Ownership.EpochHistory(db, run, 0, j);
    WithinEpochRun(db, run, j, |run|, w.epoch);
    WriteWithinEpoch(Ownership.At(db, run, |run|), w);
  }

  /** At epoch zero the cancel is not fenced, and it strands a job that was claimed and
      re-enqueued while the cancel was under way. */
  lemma UnfencedCancelStrands(manifest: seq<ManifestEntry>, doc: StatusDoc, p: ProcessorId, since: nat)
    returns (s: Sys, read: Sys, missed: Sys)
    requires Submitted(doc) && p != ""
    ensures Lifecycle.Reachable(manifest, doc, s) && Stranded(s.db.row)
    ensures read.db.row.epoch == 0 && Lifecycle.Reachable(manifest, doc, read)
    ensures Lifecycle.Reachable(manifest, doc, missed) && !Applies(missed.db, DeleteQueued)
  {
    Lifecycle.ReachInit(manifest, doc);
    read := Init(manifest, doc);
    var w := CancelWrite(Read(read.db.row.doc, 0, false), since);
    missed := Lifecycle.ReachStep(manifest, doc, read, Job(Dequeues(p, 300000)));
    s := Lifecycle.ReachStep(manifest, doc, missed, Issue(Enqueue(p, 1, Validating)));
    s := Lifecycle.ReachStep(manifest, doc, s, Issue(UpdateStatus(w)));
  }
}
