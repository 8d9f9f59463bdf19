/** The actors around one batch: processors and their zombies, the checkpoint calls
    they run against the create-only file store, durable result deliveries, startup
    recovery, the reconciler and the API server. Every step is one atomic effect;
    a step that is not enabled changes nothing, and any actor may stop at any point
    (a crash), so a run is just a sequence of steps. */
module System {
  import opened BatchTypes
  import opened Statements

  const MAX_RECOVERY_ATTEMPTS: nat := 3

  /** Progress of one call of the result store's Checkpoint. */
  datatype Phase =
    | Received
    | Storing
    | Colliding
    | FallingBack
    | Stored(key: ResultKey)
    | Disputed(key: ResultKey)
    | Superseded(key: ResultKey)
    | Accounted
    | Abandoned

  /** Where a result comes from: a durable delivery, a dispatch that followed a
      successful mark, or the error line of a request that was never submitted because
      its mark failed, its line no longer parses, or the run was cancelled. */
  datatype Source = Delivered(delivery: nat) | Dispatched | Unsubmitted

  datatype Call = Call(
    pid: ProcessorId,
    epoch: nat,
    rid: RequestId,
    line: Bytes,
    status: EntryStatus,
    errorCode: string,
    source: Source,
    phase: Phase)

  /** The row as a run read it after its claim. */
  datatype Item = Item(processor: Option<ProcessorId>, epoch: nat, attempts: nat, doc: StatusDoc)

  /** How a run came by its claim: from the queue, or at startup, within the recovery
      budget or beyond it. */
  datatype Origin = FromQueue | AtStartup | Exhausted

  /** One job run: what it claimed, what it last read, whether any read returned the
      row of another claim, how far it went, and the status document it builds on once
      it holds the activated batch. */
  datatype JobRun = JobRun(
    pid: ProcessorId,
    claim: nat,
    origin: Origin,
    resumed: bool,
    pickup: nat,
    item: Option<Item>,
    stale: bool,
    puts: set<nat>,
    activating: bool,
    closed: bool,
    executing: bool,
    held: Option<StatusDoc>)

  /** An activated row claimed at startup, to be handed back to the queue: the epoch of
      the claim, and the row as it was read back for the requeue. */
  datatype StartupTask = StartupTask(claimant: ProcessorId, claim: nat, read: Option<Item>, done: bool)

  datatype Sys = Sys(
    manifest: seq<ManifestEntry>,
    db: Db,
    objects: map<ResultKey, Bytes>,
    uuid: nat,
    calls: seq<Call>,
    deliveries: seq<RequestId>,
    cleared: set<nat>,
    acked: set<nat>,
    runs: seq<JobRun>,
    startupTasks: seq<StartupTask>,
    listings: set<Item>,
    requeues: nat,
    pickups: nat,
    finalized: bool,
    unmarked: bool)

  /** Steps of a job run: claiming and reading the row, activating it, reading its status
      again and announcing its finalization, or the plain terminal writes of a batch that
      was never activated. */
  datatype JobStep =
    | Dequeues(pid: ProcessorId, ttl: int)
    | Claims(pid: ProcessorId)
    | Fetch(run: nat)
    | StartupRead(task: nat)
    | StartupRequeue(task: nat)
    | PutRejected(run: nat, line: nat)
    | Activates(run: nat, ttl: int)
    | LegacyWrite(run: nat, doc: StatusDoc)
    | LegacyFail(run: nat, doc: StatusDoc)
    | Executes(run: nat, expired: bool)
    | Refresh(run: nat)
    | Announces(run: nat, doc: StatusDoc)

  /** Steps of one checkpoint call. A lost effect happens but is not reported, and an
      object that cannot be read back does not verify. */
  datatype CallStep =
    | LookUp
    | PutCanonical(lost: bool)
    | Verify(readable: bool)
    | PutFallback(lost: bool)
    | Commit(lost: bool)
    | Disambiguate
    | Cleanup(deleted: bool)
    | Abandon

  datatype Step =
    | Issue(stmt: Stmt)
    | Job(job: JobStep)
    | StartCall(started: Call)
    | OnCall(call: nat, action: CallStep)
    | Acknowledge(call: nat)
    | Deliver(rid: RequestId)
    | CheckResidue(delivery: nat)
    | AckResidue(delivery: nat)
    | Lists
    | Orphans(listed: Item, doc: StatusDoc)
    | Finalizes(pid: ProcessorId, epoch: nat, expected: BatchStatus, doc: StatusDoc)
    | VerifyFinalized(doc: StatusDoc)
    | Purge(keys: set<ResultKey>)

  function Init(manifest: seq<ManifestEntry>, doc: StatusDoc): Sys {
    Sys(manifest, Db(Row(doc.(status := Validating, outputFile := None, errorFile := None), None, 0, 0, false, None), [], 0),
        map[], 0, [], [], {}, {}, [], [], {}, 0, 0, false, false)
  }

  // ---- which statements the actors issue ----

  /** A document derived from another by a transition that records no artifact. */
  predicate Derived(doc: StatusDoc, from: StatusDoc) {
    NamesFile(doc) ==> NamesFile(from)
  }

  /** The API server's cancelling write: a CAS on a status it read as cancellable. */
  predicate CancelForm(w: StatusWrite) {
    w.doc.status == Cancelling && !w.bump && w.expectedResumable.Some? && w.expectedDoc.Some? &&
    (w.expectedDoc.value.status == Validating || w.expectedDoc.value.status == InProgress) &&
    Derived(w.doc, w.expectedDoc.value)
  }

  /** The reconciler's terminal transition of an orphan that was never activated. */
  predicate OrphanForm(w: StatusWrite) {
    (w.doc.status == Cancelled || w.doc.status == Failed) && w.bump &&
    w.expectedResumable == Some(false) && w.expectedDoc.Some? && !IsTerminal(w.expectedDoc.value.status) &&
    Derived(w.doc, w.expectedDoc.value)
  }

  function OrphanWrite(listed: Item, doc: StatusDoc): StatusWrite {
    StatusWrite(doc, listed.epoch, true, Some(listed.doc), Some(false))
  }

  /** The finalizer's announcement, fenced on the epoch and the resumable flag. */
  predicate FinalizingForm(w: StatusWrite) {
    w.doc.status == Finalizing && !w.bump && w.expectedDoc.None? && w.expectedResumable == Some(true)
  }

  predicate Issuable(s: Stmt) {
    match s
    case Tick(_) => true
    case Enqueue(_, _, _) => true
    case DeleteQueued => true
    case Renew(_, _, _) => true
    case Requeue(_, _, _, bump) => bump
    case RecordSubmitter(_) => true
    case Mark(_, _, _) => true
    case UpdateProgress(_, _) => true
    case UpdateStatus(w) => CancelForm(w)
    case _ => false
  }

  // ---- file store ----

  predicate Intact(objects: map<ResultKey, Bytes>, m: ResultMeta) {
    m.key in objects && |objects[m.key]| == m.size && Sha256(objects[m.key]) == m.digest
  }

  /** Create-only: an existing object is never replaced. */
  function Put(objects: map<ResultKey, Bytes>, key: ResultKey, line: Bytes): map<ResultKey, Bytes> {
    if key in objects then objects else objects[key := line]
  }

  // ---- routing ----

  /** The terminal status a resumed pickup is routed to, if it must not execute. */
  function RoutePickup(item: Item, expired: bool): Option<BatchStatus> {
    if item.doc.status == Cancelling then Some(Cancelled)
    else if expired then Some(Expired)
    else if item.attempts > MAX_RECOVERY_ATTEMPTS then Some(Failed)
    else None
  }

  /** A fresh run may still terminalize its row with a plain write. */
  predicate LegacyOpen(r: JobRun) {
    !r.resumed && !r.activating && !r.closed
  }

  /** A run may read its row again until it acts on what it read. */
  predicate CanRead(r: JobRun) {
    !r.activating && !r.closed && !r.executing
  }

  /** The plain terminal statuses a run may write without looking at the stored one: a
      queued task past its deadline expires whatever was read. */
  predicate PlainStatus(r: JobRun, status: BatchStatus)
    requires r.item.Some?
  {
    match r.origin
    case FromQueue => status == Expired || (status == Cancelled && !IsTerminal(r.item.value.doc.status))
    case AtStartup => status == Expired && r.item.value.doc.status == Validating
    case Exhausted => false
  }

  predicate AllRejectedStored(manifest: seq<ManifestEntry>, puts: set<nat>) {
    forall i :: 0 <= i < |manifest| && manifest[i].rejected ==> i in puts
  }

  predicate EntryMarked(db: Db, rid: RequestId) {
    var i := IndexOf(db.entries, rid);
    i.Some? && db.entries[i.value].attempts > 0
  }

  predicate EntryTerminal(db: Db, rid: RequestId) {
    var i := IndexOf(db.entries, rid);
    i.Some? && db.entries[i.value].Terminal()
  }

  /** A call may begin once its result exists: an unacknowledged delivery, or a
      dispatch of a marked entry; an unsubmitted error needs nothing. */
  predicate CanStart(s: Sys, c: Call) {
    && c.phase == Received
    && (c.status == EntryCompleted || c.status == EntryFailed)
    && match c.source
       case Delivered(d) => d < |s.deliveries| && d !in s.acked && s.deliveries[d] == c.rid
       case Dispatched => EntryMarked(s.db, c.rid)
       case Unsubmitted => c.status == EntryFailed
  }

  function CommitStmt(c: Call): Stmt
    requires c.phase.Stored?
  {
    Checkpoint(c.pid, c.epoch, c.rid, EntryResult(c.status, MetaOf(c.phase.key, c.line), c.errorCode))
  }

  /** A failed result committed to an entry no dispatch was counted for. */
  predicate UnmarkedFailure(db: Db, c: Call) {
    c.status == EntryFailed && !EntryMarked(db, c.rid)
  }

  // ---- job steps ----

  predicate JobEnabled(s: Sys, j: JobStep) {
    match j
    case Dequeues(pid, ttl) => Applies(s.db, Dequeue(pid, ttl))
    case Claims(pid) => Applies(s.db, ClaimOwned(pid))
    case Fetch(i) => i < |s.runs| && CanRead(s.runs[i])
    case StartupRead(t) => t < |s.startupTasks| && !s.startupTasks[t].done
    case StartupRequeue(t) => t < |s.startupTasks| && !s.startupTasks[t].done && s.startupTasks[t].read.Some?
    case PutRejected(i, x) => i < |s.runs| && x < |s.manifest| && s.manifest[x].rejected
    case Activates(i, _) =>
      i < |s.runs| && s.runs[i].item.Some? && s.runs[i].item.value.processor.Some? &&
      LegacyOpen(s.runs[i]) && s.runs[i].origin == FromQueue && AllRejectedStored(s.manifest, s.runs[i].puts)
    case LegacyWrite(i, doc) =>
      i < |s.runs| && s.runs[i].item.Some? && LegacyOpen(s.runs[i]) &&
      PlainStatus(s.runs[i], doc.status) && Derived(doc, s.runs[i].item.value.doc)
    case LegacyFail(i, doc) =>
      i < |s.runs| && s.runs[i].item.Some? && !s.runs[i].resumed && doc.status == Failed &&
      (s.runs[i].origin == Exhausted || !IsTerminal(s.runs[i].item.value.doc.status)) &&
      Derived(doc, s.runs[i].item.value.doc)
    case Executes(i, expired) =>
      i < |s.runs| && s.runs[i].item.Some? && s.runs[i].resumed &&
      RoutePickup(s.runs[i].item.value, expired).None?
    case Refresh(i) => i < |s.runs| && s.runs[i].held.Some?
    case Announces(i, doc) =>
      i < |s.runs| && s.runs[i].item.Some? && s.runs[i].held.Some? &&
      doc.status == Finalizing && Derived(doc, s.runs[i].held.value)
  }

  /** The startup requeue, fenced on the row as read back. An unowned row reads as an
      empty processor id, which matches no row. */
  function StartupStmt(t: StartupTask): Stmt
    requires t.read.Some?
  {
    Requeue(if t.read.value.processor.Some? then t.read.value.processor.value else "", t.read.value.epoch, false, false)
  }

  function JobStmt(s: Sys, j: JobStep): Stmt
    requires JobEnabled(s, j)
  {
    match j
    case Dequeues(pid, ttl) => Dequeue(pid, ttl)
    case Claims(pid) => ClaimOwned(pid)
    case StartupRequeue(t) => StartupStmt(s.startupTasks[t])
    case Activates(i, ttl) =>
      var item := s.runs[i].item.value;
      Activate(item.processor.value, item.epoch, ttl, ActivationEntries(s.manifest))
    case LegacyWrite(i, doc) =>
      UpdateStatus(StatusWrite(doc, s.runs[i].item.value.epoch, false, None, None))
    case LegacyFail(i, doc) =>
      var item := s.runs[i].item.value;
      UpdateStatus(StatusWrite(doc, item.epoch, false, Some(item.doc), None))
    case Announces(i, doc) =>
      UpdateStatus(StatusWrite(doc, s.runs[i].item.value.epoch, false, None, Some(true)))
    case _ => Tick(0)
  }

  function NewRun(s: Sys, pid: ProcessorId, origin: Origin, resumed: bool, pickup: nat): JobRun {
    JobRun(pid, s.db.row.epoch + 1, origin, resumed, pickup, None, false, {}, false, false, false, None)
  }

  function RejectedMeta(m: ManifestEntry): ResultMeta {
    MetaOf(Canonical(m.requestId), m.errLine)
  }

  function ReadItem(row: Row): Item {
    Item(row.processor, row.epoch, row.attempts, row.doc)
  }

  function RunAfter(s: Sys, j: JobStep): JobRun
    requires JobEnabled(s, j) && !j.Dequeues? && !j.Claims? && !j.StartupRead? && !j.StartupRequeue?
  {
    var r := s.runs[j.run];
    match j
    case Fetch(_) => r.(item := Some(ReadItem(s.db.row)), stale := r.stale || s.db.row.epoch != r.claim)
    case PutRejected(_, x) =>
      var m := RejectedMeta(s.manifest[x]);
      if Intact(Put(s.objects, m.key, s.manifest[x].errLine), m) then r.(puts := r.puts + {x}) else r
    case Activates(_, _) =>
      r.(activating := true, held := if Applies(s.db, JobStmt(s, j)) then Some(r.item.value.doc) else None)
    case LegacyWrite(_, _) => r.(closed := true)
    case LegacyFail(_, _) => r.(closed := true)
    case Executes(_, _) => r.(executing := true, held := Some(r.item.value.doc))
    case Refresh(_) => r.(held := Some(s.db.row.doc))
    case Announces(_, _) => r
  }

  function JobLocal(s: Sys, j: JobStep): Sys
    requires JobEnabled(s, j)
  {
    match j
    case Dequeues(pid, _) =>
      var resumed := s.db.row.resumable;
      var n := if resumed then s.pickups + 1 else s.pickups;
      s.(pickups := n, runs := s.runs + [NewRun(s, pid, FromQueue, resumed, n)])
    case Claims(pid) =>
      if s.db.row.resumable
      then s.(startupTasks := s.startupTasks + [StartupTask(pid, s.db.row.epoch + 1, None, false)])
      else
        var origin := if s.db.row.attempts + 1 > MAX_RECOVERY_ATTEMPTS then Exhausted else AtStartup;
        s.(runs := s.runs + [NewRun(s, pid, origin, false, 0)])
    case StartupRead(t) =>
      s.(startupTasks := s.startupTasks[t := s.startupTasks[t].(read := Some(ReadItem(s.db.row)))])
    case StartupRequeue(t) =>
      s.(startupTasks := s.startupTasks[t := s.startupTasks[t].(done := true)],
         requeues := if Applies(s.db, JobStmt(s, j)) then s.requeues + 1 else s.requeues)
    case PutRejected(i, x) =>
      s.(objects := Put(s.objects, Canonical(s.manifest[x].requestId), s.manifest[x].errLine),
         runs := s.runs[i := RunAfter(s, j)])
    case _ => s.(runs := s.runs[j.run := RunAfter(s, j)])
  }

  // ---- checkpoint calls ----

  predicate CallEnabled(c: Call, a: CallStep) {
    match a
    case LookUp => c.phase == Received
    case PutCanonical(_) => c.phase == Storing
    case Verify(_) => c.phase == Colliding
    case PutFallback(_) => c.phase == FallingBack
    case Commit(_) => c.phase.Stored?
    case Disambiguate => c.phase.Disputed?
    case Cleanup(_) => c.phase.Superseded?
    case Abandon => c.phase != Accounted
  }

  function PhaseAfter(s: Sys, c: Call, a: CallStep): Phase
    requires CallEnabled(c, a)
  {
    var canonical := Canonical(c.rid);
    match a
    case LookUp => if EntryTerminal(s.db, c.rid) then Accounted else Storing
    case PutCanonical(lost) =>
      if lost then Abandoned else if canonical in s.objects then Colliding else Stored(canonical)
    case Verify(readable) =>
      if readable && Intact(s.objects, MetaOf(canonical, c.line)) then Stored(canonical) else FallingBack
    case PutFallback(lost) => if lost then Abandoned else Stored(Fallback(c.rid, s.uuid))
    case Commit(lost) =>
      if lost then Abandoned
      else if Applies(s.db, CommitStmt(c)) then Accounted else Disputed(c.phase.key)
    case Disambiguate =>
      if !Duplicate(s.db, c.pid, c.epoch, c.rid) then Abandoned
      else if c.phase.key == canonical then Accounted
      else Superseded(c.phase.key)
    case Cleanup(_) => Accounted
    case Abandon => Abandoned
  }

  function ObjectsAfter(s: Sys, c: Call, a: CallStep): map<ResultKey, Bytes>
    requires CallEnabled(c, a)
  {
    match a
    case PutCanonical(_) => Put(s.objects, Canonical(c.rid), c.line)
    case PutFallback(_) => Put(s.objects, Fallback(c.rid, s.uuid), c.line)
    case Cleanup(deleted) => if deleted then s.objects - {c.phase.key} else s.objects
    case _ => s.objects
  }

  predicate CommitsUnmarked(s: Sys, c: Call, a: CallStep)
    requires CallEnabled(c, a)
  {
    a.Commit? && Applies(s.db, CommitStmt(c)) && UnmarkedFailure(s.db, c)
  }

  function CallLocal(s: Sys, i: nat, a: CallStep): Sys
    requires i < |s.calls| && CallEnabled(s.calls[i], a)
  {
    var c := s.calls[i];
    s.(calls := s.calls[i := c.(phase := PhaseAfter(s, c, a))],
       objects := ObjectsAfter(s, c, a),
       uuid := if a.PutFallback? then s.uuid + 1 else s.uuid,
       unmarked := s.unmarked || CommitsUnmarked(s, c, a))
  }

  // ---- steps ----

  predicate Enabled(s: Sys, step: Step) {
    match step
    case Issue(stmt) => Issuable(stmt)
    case Job(j) => JobEnabled(s, j)
    case StartCall(c) => CanStart(s, c)
    case OnCall(i, a) => i < |s.calls| && CallEnabled(s.calls[i], a)
    case Acknowledge(i) => i < |s.calls| && s.calls[i].phase == Accounted && s.calls[i].source.Delivered?
    case Deliver(rid) => EntryMarked(s.db, rid)
    case CheckResidue(d) => d < |s.deliveries| && !OpenEntry(s.db, s.deliveries[d])
    case AckResidue(d) => d in s.cleared
    case Lists => s.db.row.processor.Some? && !s.db.row.Terminal()
    case Orphans(listed, doc) => listed in s.listings && OrphanForm(OrphanWrite(listed, doc))
    case Finalizes(_, _, _, doc) => IsTerminal(doc.status) && NamesFile(doc)
    case VerifyFinalized(doc) => IsTerminal(doc.status) && NamesFile(doc) && s.db.row.doc == doc
    case Purge(_) => s.finalized
  }

  /** The statement a step issues; a step that touches no row issues an idle tick. */
  function StmtOf(s: Sys, step: Step): Stmt
    requires Enabled(s, step)
  {
    match step
    case Issue(stmt) => stmt
    case Job(j) => JobStmt(s, j)
    case OnCall(i, a) => if a.Commit? then CommitStmt(s.calls[i]) else Tick(0)
    case Orphans(listed, doc) => UpdateStatus(OrphanWrite(listed, doc))
    case Finalizes(pid, epoch, expected, doc) => Finalize(pid, epoch, expected, doc)
    case _ => Tick(0)
  }

  /** Everything a step changes besides the database. */
  function Local(s: Sys, step: Step): Sys
    requires Enabled(s, step)
  {
    match step
    case Issue(stmt) =>
      if stmt.Requeue? && Applies(s.db, stmt) then s.(requeues := s.requeues + 1) else s
    case Job(j) => JobLocal(s, j)
    case StartCall(c) => s.(calls := s.calls + [c])
    case OnCall(i, a) => CallLocal(s, i, a)
    case Acknowledge(i) => s.(acked := s.acked + {s.calls[i].source.delivery})
    case Deliver(rid) => s.(deliveries := s.deliveries + [rid])
    case CheckResidue(d) => s.(cleared := s.cleared + {d})
    case AckResidue(d) => s.(acked := s.acked + {d})
    case Lists => s.(listings := s.listings + {ReadItem(s.db.row)})
    case Orphans(_, _) => s
    case Finalizes(_, _, _, _) => s.(finalized := s.finalized || Applies(s.db, StmtOf(s, step)))
    case VerifyFinalized(_) => s.(finalized := true)
    case Purge(keys) => s.(objects := s.objects - keys)
  }

  function Apply(s: Sys, step: Step): Sys {
    if Enabled(s, step) then Local(s, step).(db := Exec(s.db, StmtOf(s, step))) else s
  }

  /** The state after a run. */
  function After(s: Sys, steps: seq<Step>): Sys {
    if |steps| == 0 then s else Apply(After(s, steps[..|steps| - 1]), steps[|steps| - 1])
  }
}
