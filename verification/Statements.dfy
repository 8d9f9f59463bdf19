/** Every SQL statement on a batch row, as a guarded atomic step on Db: the WHERE
    clause is the guard, the SET clause the effect, and a statement whose guard
    fails leaves the database unchanged. Durations are milliseconds; the
    statements bind whole seconds, as the drivers truncate them. */
module Statements {
  import opened BatchTypes

  /** Whole seconds of a duration; a non-positive one counts as zero. */
  function Seconds(ttl: int): nat {
    if ttl <= 0 then 0 else ttl / 1000
  }

  function LeaseUntil(now: nat, ttl: int): nat {
    now + Seconds(ttl)
  }

  /** Arguments of the generic conditional status update. */
  datatype StatusWrite = StatusWrite(
    doc: StatusDoc,
    epoch: nat,
    bump: bool,
    expectedDoc: Option<StatusDoc>,
    expectedResumable: Option<bool>)

  datatype EntryResult = EntryResult(status: EntryStatus, meta: ResultMeta, errorCode: string)

  datatype Stmt =
    | Tick(dt: nat)
    | Dequeue(pid: ProcessorId, ttl: int)
    | ClaimOwned(pid: ProcessorId)
    | Enqueue(pid: ProcessorId, epoch: nat, expected: BatchStatus)
    | DeleteQueued
    | Activate(pid: ProcessorId, epoch: nat, ttl: int, seed: seq<Entry>)
    | Renew(pid: ProcessorId, epoch: nat, ttl: int)
    | Requeue(pid: ProcessorId, epoch: nat, requireExpired: bool, bump: bool)
    | RecordSubmitter(pid: ProcessorId)
    | Finalize(pid: ProcessorId, epoch: nat, expected: BatchStatus, doc: StatusDoc)
    | Mark(pid: ProcessorId, epoch: nat, rid: RequestId)
    | Checkpoint(pid: ProcessorId, epoch: nat, rid: RequestId, result: EntryResult)
    | UpdateStatus(write: StatusWrite)
    | UpdateProgress(epoch: nat, counts: Counts)

  /** The ownership fence of every entry write. */
  predicate OwnerFence(db: Db, pid: ProcessorId, epoch: nat) {
    && db.row.processor == Some(pid)
    && db.row.epoch == epoch
    && db.row.lease.Some? && db.row.lease.value > db.now
    && db.row.resumable
    && !db.row.Terminal()
  }

  predicate OpenEntry(db: Db, rid: RequestId) {
    var i := IndexOf(db.entries, rid);
    i.Some? && !db.entries[i.value].Terminal()
  }

  /** The activation's entry set inserts only if it respects the primary key. */
  predicate Insertable(seed: seq<Entry>) {
    |seed| > 0 && forall i, j :: 0 <= i < j < |seed| ==> seed[i].requestId != seed[j].requestId
  }

  predicate Applies(db: Db, s: Stmt) {
    var row := db.row;
    match s
    case Tick(_) => true
    case Dequeue(pid, ttl) =>
      pid != "" && row.processor.None? &&
      ((!row.resumable && row.doc.status == Validating) ||
       (row.resumable && Seconds(ttl) > 0 && !row.Terminal()))
    case ClaimOwned(pid) =>
      pid != "" && row.processor == Some(pid) && !row.Terminal()
    case Enqueue(pid, epoch, expected) =>
      pid != "" && row.epoch == epoch && row.processor == Some(pid) &&
      row.doc.status == expected && !row.resumable && !row.Terminal()
    case DeleteQueued =>
      row.processor.None? && !row.resumable && row.doc.status == Validating
    case Activate(pid, epoch, ttl, seed) =>
      pid != "" && ttl > 0 && Insertable(seed) &&
      row.processor == Some(pid) && row.epoch == epoch &&
      row.doc.status == Validating && !row.resumable && |db.entries| == 0
    case Renew(pid, epoch, ttl) =>
      ttl > 0 && OwnerFence(db, pid, epoch)
    case Requeue(pid, epoch, requireExpired, _) =>
      row.processor == Some(pid) && row.epoch == epoch && row.resumable && !row.Terminal() &&
      (requireExpired ==> row.lease.Some? && row.lease.value <= db.now)
    case RecordSubmitter(_) => true
    case Finalize(pid, epoch, expected, _) =>
      pid != "" && row.processor == Some(pid) && row.epoch == epoch && row.resumable &&
      row.lease.Some? && row.lease.value > db.now && row.doc.status == expected
    case Mark(pid, epoch, rid) =>
      OwnerFence(db, pid, epoch) && OpenEntry(db, rid)
    case Checkpoint(pid, epoch, rid, result) =>
      (result.status == EntryCompleted || result.status == EntryFailed) &&
      OwnerFence(db, pid, epoch) && OpenEntry(db, rid)
    case UpdateStatus(w) =>
      (w.epoch > 0 || w.bump ==> row.epoch == w.epoch) &&
      (w.expectedDoc.Some? ==> row.doc == w.expectedDoc.value) &&
      (w.expectedResumable.Some? ==> row.resumable == w.expectedResumable.value)
    case UpdateProgress(epoch, _) =>
      !row.Terminal() && row.epoch == epoch
  }

  /** An activated entry starts undispatched, whatever its status. */
  function Inserted(e: Entry): Entry {
    e.(attempts := 0, submittedBy := None)
  }

  function WithSubmitter(e: Entry, pid: ProcessorId): Entry {
    if e.status == InFlight && e.submittedBy.None? then e.(submittedBy := Some(pid)) else e
  }

  function Marked(e: Entry, pid: ProcessorId): Entry {
    e.(status := InFlight, attempts := e.attempts + 1, submittedBy := Some(pid))
  }

  function Checkpointed(e: Entry, r: EntryResult): Entry {
    e.(status := r.status, result := Some(r.meta), errorCode := r.errorCode)
  }

  function Exec(db: Db, s: Stmt): Db {
    if !Applies(db, s) then db else
    var row := db.row;
    match s
    case Tick(dt) => db.(now := db.now + dt)
    case Dequeue(pid, ttl) =>
      db.(row := row.(processor := Some(pid), epoch := row.epoch + 1,
                      attempts := if row.resumable then row.attempts else 0,
                      lease := if row.resumable then Some(LeaseUntil(db.now, ttl)) else None))
    case ClaimOwned(_) =>
      db.(row := row.(epoch := row.epoch + 1, attempts := row.attempts + 1))
    case Enqueue(_, _, _) =>
      db.(row := row.(processor := None, doc := row.doc.(status := Validating), epoch := row.epoch + 1))
    case DeleteQueued =>
      db.(row := row.(doc := row.doc.(status := Cancelled, since := db.now), epoch := row.epoch + 1))
    case Activate(_, _, ttl, seed) =>
      db.(row := row.(doc := row.doc.(status := InProgress, since := db.now), resumable := true,
                      lease := Some(LeaseUntil(db.now, ttl))),
          entries := seq(|seed|, i requires 0 <= i < |seed| => Inserted(seed[i])))
    case Renew(_, _, ttl) =>
      db.(row := row.(lease := Some(LeaseUntil(db.now, ttl))))
    case Requeue(_, _, _, bump) =>
      db.(row := row.(processor := None, lease := None, epoch := row.epoch + 1,
                      attempts := if bump then row.attempts + 1 else row.attempts))
    case RecordSubmitter(pid) =>
      db.(entries := seq(|db.entries|, i requires 0 <= i < |db.entries| => WithSubmitter(db.entries[i], pid)))
    case Finalize(_, _, _, doc) =>
      db.(row := row.(doc := doc, resumable := false, lease := None))
    case Mark(pid, _, rid) =>
      var i := IndexOf(db.entries, rid).value;
      db.(entries := db.entries[i := Marked(db.entries[i], pid)])
    case Checkpoint(_, _, rid, result) =>
      var i := IndexOf(db.entries, rid).value;
      db.(entries := db.entries[i := Checkpointed(db.entries[i], result)])
    case UpdateStatus(w) =>
      db.(row := row.(doc := w.doc, epoch := if w.bump then row.epoch + 1 else row.epoch))
    case UpdateProgress(_, counts) =>
      db.(row := row.(doc := row.doc.(counts := counts)))
  }

  /** The lookup behind a zero-row entry write: a duplicate only for a caller that
      still holds the row, of an entry that is terminal. */
  predicate Duplicate(db: Db, pid: ProcessorId, epoch: nat, rid: RequestId) {
    var i := IndexOf(db.entries, rid);
    i.Some? && db.row.processor == Some(pid) && db.row.epoch == epoch && db.entries[i.value].Terminal()
  }
}
