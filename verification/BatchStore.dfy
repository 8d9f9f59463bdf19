/** The store as the processors call it: one object per batch row, updated in place,
    each method proved to do exactly what its SQL statement does. */
module BatchStore {
  import opened BatchTypes
  import opened Statements
  import Ownership

  /** What a fenced write reports: done, a dropped duplicate, a lost fence, or an
      argument refused before any statement is sent. */
  datatype Outcome = Done | AlreadyTerminal | Conflict | Refused

  /** Every in-flight entry that named no submitter names this one; all else is the same. */
  ghost predicate Backfilled(before: seq<Entry>, after: seq<Entry>, pid: ProcessorId) {
    && |after| == |before|
    && forall i :: 0 <= i < |after| ==>
         after[i] == if before[i].status == InFlight && before[i].submittedBy == None
                     then before[i].(submittedBy := Some(pid)) else before[i]
  }

  class ResumableStore {
    var doc: StatusDoc
    var processor: Option<ProcessorId>
    var epoch: nat
    var attempts: nat
    var resumable: bool
    var lease: Option<nat>
    var entries: seq<Entry>
    var now: nat

    /** The row values a statement sees. */
    function Snapshot(): Db
      reads this
    {
      Db(Row(doc, processor, epoch, attempts, resumable, lease), entries, now)
    }

    constructor (queued: StatusDoc)
      ensures Snapshot() == Db(Row(queued.(status := Validating), None, 0, 0, false, None), [], 0)
    {
      doc := queued.(status := Validating);
      processor, lease := None, None;
      epoch, attempts, now := 0, 0, 0;
      resumable := false;
      entries := [];
    }

    /** The ownership fence every entry write takes first. */
    predicate Owned(pid: ProcessorId, at: nat)
      reads this
    {
      OwnerFence(Snapshot(), pid, at)
    }

    /** Whatever other actors do to the row in the meantime. */
    method Interleave(others: seq<Stmt>)
      modifies this
      ensures Snapshot() == Ownership.At(old(Snapshot()), others, |others|)
    {
      for i := 0 to |others|
        invariant Snapshot() == Ownership.At(old(Snapshot()), others, i)
      {
        var next := Exec(Snapshot(), others[i]);
        doc, processor, epoch := next.row.doc, next.row.processor, next.row.epoch;
        attempts, resumable, lease := next.row.attempts, next.row.resumable, next.row.lease;
        entries, now := next.entries, next.now;
      }
    }

    /** A queued row is claimed with a fresh recovery budget and no lease; an activated one
        that was handed back keeps its attempts and gets a lease of whole seconds. */
    method PQDequeue(pid: ProcessorId, ttl: int) returns (claimed: bool)
      modifies `processor, `epoch, `attempts, `lease
      ensures claimed <==>
                && pid != "" && old(processor) == None
                && if resumable then ttl >= 1000 && !IsTerminal(doc.status) else doc.status == Validating
      ensures claimed ==> processor == Some(pid) && epoch == old(epoch) + 1
      ensures claimed && !resumable ==> attempts == 0 && lease == None
      ensures claimed && resumable ==> attempts == old(attempts) && lease == Some(now + ttl / 1000)
      ensures !claimed ==> unchanged(this)
      ensures claimed == Applies(old(Snapshot()), Dequeue(pid, ttl))
      ensures Snapshot() == Exec(old(Snapshot()), Dequeue(pid, ttl))
    {
      if pid == "" || processor.Some? {
        return false;
      }
      var queued := !resumable && doc.status == Validating;
      var requeued := resumable && Seconds(ttl) > 0 && !IsTerminal(doc.status);
      if !queued && !requeued {
        return false;
      }
      processor := Some(pid);
      epoch := epoch + 1;
      attempts := if resumable then attempts else 0;
      lease := if resumable then Some(LeaseUntil(now, ttl)) else None;
      return true;
    }

    /** A restarted processor claims its own unfinished row; the claim costs one attempt. */
    method PQClaimOwned(pid: ProcessorId) returns (claimed: bool)
      modifies `epoch, `attempts
      ensures claimed <==> pid != "" && processor == Some(pid) && !IsTerminal(doc.status)
      ensures claimed ==> epoch == old(epoch) + 1 && attempts == old(attempts) + 1
      ensures !claimed ==> unchanged(this)
      ensures claimed == Applies(old(Snapshot()), ClaimOwned(pid))
      ensures Snapshot() == Exec(old(Snapshot()), ClaimOwned(pid))
    {
      if pid == "" || processor != Some(pid) || IsTerminal(doc.status) {
        return false;
      }
      epoch := epoch + 1;
      attempts := attempts + 1;
      return true;
    }

    /** A row that was never activated goes back to the queue; its attempts stay. */
    method PQEnqueue(pid: ProcessorId, at: nat, expected: BatchStatus) returns (r: Outcome)
      modifies `processor, `doc, `epoch
      ensures r == Refused <==> pid == ""
      ensures r == Done <==>
                && pid != "" && old(processor) == Some(pid) && old(epoch) == at
                && old(doc).status == expected && !IsTerminal(expected) && !resumable
      ensures r == Done ==> processor == None && epoch == at + 1 && doc == old(doc).(status := Validating)
      ensures r != Done ==> unchanged(this)
      ensures r == (if pid == "" then Refused
                    else if Applies(old(Snapshot()), Enqueue(pid, at, expected)) then Done else Conflict)
      ensures Snapshot() == Exec(old(Snapshot()), Enqueue(pid, at, expected))
    {
      if pid == "" {
        return Refused;
      }
      if epoch != at || processor != Some(pid) || doc.status != expected || resumable || IsTerminal(doc.status) {
        return Conflict;
      }
      processor := None;
      doc := doc.(status := Validating);
      epoch := epoch + 1;
      return Done;
    }

    /** A row that is still in the queue is cancelled there. */
    method PQDelete() returns (cancelled: nat)
      modifies `doc, `epoch
      ensures cancelled <= 1
      ensures cancelled == 1 <==> processor == None && !resumable && old(doc).status == Validating
      ensures cancelled == 1 ==> doc == old(doc).(status := Cancelled, since := now) && epoch == old(epoch) + 1
      ensures cancelled == 0 ==> unchanged(this)
      ensures cancelled == if Applies(old(Snapshot()), DeleteQueued) then 1 else 0
      ensures Snapshot() == Exec(old(Snapshot()), DeleteQueued)
    {
      if processor.Some? || resumable || doc.status != Validating {
        return 0;
      }
      doc := doc.(status := Cancelled, since := now);
      epoch := epoch + 1;
      return 1;
    }

    /** Claimed at that epoch and not activated yet. */
    ghost predicate Activatable(pid: ProcessorId, at: nat)
      reads this
    {
      processor == Some(pid) && epoch == at && doc.status == Validating && !resumable && entries == []
    }

    /** The owner inserts the entry set, undispatched, and takes the lease. */
    method ActivateResumableBatch(pid: ProcessorId, at: nat, ttl: int, seed: seq<Entry>) returns (r: Outcome)
      modifies `entries, `doc, `resumable, `lease
      ensures r == Done <==>
                pid != "" && ttl > 0 && |seed| > 0 && DistinctRequests(seed) && old(Activatable(pid, at))
      ensures r == Conflict <==> pid != "" && ttl > 0 && |seed| > 0 && !old(Activatable(pid, at))
      ensures r == Done ==>
                && doc == old(doc).(status := InProgress, since := now) && resumable && lease == Some(now + ttl / 1000)
                && |entries| == |seed|
                && forall i :: 0 <= i < |seed| ==> entries[i] == seed[i].(attempts := 0, submittedBy := None)
      ensures r != Done ==> unchanged(this)
      ensures Snapshot() == Exec(old(Snapshot()), Activate(pid, at, ttl, seed))
      ensures r == Done <==> Applies(old(Snapshot()), Activate(pid, at, ttl, seed))
      ensures pid == "" || ttl <= 0 || |seed| == 0 ==> r == Refused
      ensures r == Refused && pid != "" && ttl > 0 && |seed| > 0 ==> !Insertable(seed)
    {
      if pid == "" || ttl <= 0 || |seed| == 0 {
        return Refused;
      }
      if processor != Some(pid) || epoch != at || doc.status != Validating || resumable || |entries| > 0 {
        return Conflict;
      }
      // A repeated request id violates the primary key and the statement fails.
      if !Insertable(seed) {
        return Refused;
      }
      var inserted: seq<Entry> := [];
      for i := 0 to |seed|
        invariant |inserted| == i
        invariant forall k :: 0 <= k < i ==> inserted[k] == Inserted(seed[k])
      {
        inserted := inserted + [seed[i].(attempts := 0, submittedBy := None)];
      }
      entries := inserted;
      doc := doc.(status := InProgress, since := now);
      resumable := true;
      lease := Some(LeaseUntil(now, ttl));
      return Done;
    }

    /** The row is held: owned at that epoch under a running lease, activated, unfinished. */
    ghost predicate Held(pid: ProcessorId, at: nat)
      reads this
    {
      && processor == Some(pid) && epoch == at && lease.Some? && now < lease.value
      && resumable && !IsTerminal(doc.status)
    }

    method RenewResumableBatchLease(pid: ProcessorId, at: nat, ttl: int) returns (r: Outcome)
      modifies `lease
      ensures r == Refused <==> ttl <= 0
      ensures r == Done <==> ttl > 0 && old(Held(pid, at))
      ensures lease == if r == Done then Some(now + ttl / 1000) else old(lease)
      ensures r == (if ttl <= 0 then Refused
                    else if Applies(old(Snapshot()), Renew(pid, at, ttl)) then Done else Conflict)
      ensures Snapshot() == Exec(old(Snapshot()), Renew(pid, at, ttl))
    {
      if ttl <= 0 {
        return Refused;
      }
      if !Owned(pid, at) {
        return Conflict;
      }
      lease := Some(LeaseUntil(now, ttl));
      return Done;
    }

    /** The submitter of every in-flight entry that has none. */
    method BackfillSubmitter(pid: ProcessorId)
      modifies `entries
      ensures Backfilled(old(entries), entries, pid)
      ensures Snapshot() == Exec(old(Snapshot()), RecordSubmitter(pid))
    {
      var was := entries;
      for i := 0 to |was|
        invariant |entries| == |was|
        invariant forall k :: 0 <= k < i ==> entries[k] == WithSubmitter(was[k], pid)
        invariant forall k :: i <= k < |was| ==> entries[k] == was[k]
      {
        if entries[i].status == InFlight && entries[i].submittedBy.None? {
          entries := entries[i := entries[i].(submittedBy := Some(pid))];
        }
      }
    }

    /** Two statements: the fenced requeue, then, if it took, the submitter of every
        in-flight entry that has none. A lost fence is not an error. */
    method RequeueResumableOrphan(pid: ProcessorId, at: nat, requireExpired: bool, bump: bool)
      modifies `processor, `lease, `epoch, `attempts, `entries
      ensures if old(processor == Some(pid) && epoch == at && resumable && !IsTerminal(doc.status) &&
                     (requireExpired ==> lease.Some? && lease.value <= now))
              then processor == None && lease == None && epoch == at + 1 &&
                   attempts == old(attempts) + (if bump then 1 else 0) && Backfilled(old(entries), entries, pid)
              else unchanged(this)
      ensures var requeue := Requeue(pid, at, requireExpired, bump);
              Snapshot() == if Applies(old(Snapshot()), requeue)
                            then Exec(Exec(old(Snapshot()), requeue), RecordSubmitter(pid))
                            else old(Snapshot())
    {
      if processor != Some(pid) || epoch != at || !resumable || IsTerminal(doc.status) {
        return;
      }
      if requireExpired && (lease.None? || lease.value > now) {
        return;
      }
      processor, lease := None, None;
      epoch := epoch + 1;
      attempts := if bump then attempts + 1 else attempts;
      BackfillSubmitter(pid);
    }

    /** The fenced terminal transition; a lost fence is still a success when the row
        already holds the very document being written. */
    method FinalizeResumableBatch(pid: ProcessorId, at: nat, expected: BatchStatus, terminal: StatusDoc)
      returns (r: Outcome)
      modifies `doc, `resumable, `lease
      ensures if pid != "" && old(processor == Some(pid) && epoch == at && resumable && lease.Some? &&
                                  now < lease.value && doc.status == expected)
              then r == Done && doc == terminal && !resumable && lease == None
              else unchanged(this) && r == if pid == "" then Refused else if doc == terminal then Done else Conflict
      ensures var fin := Finalize(pid, at, expected, terminal);
              && Snapshot() == Exec(old(Snapshot()), fin)
              && r == if pid == "" then Refused
                      else if Applies(old(Snapshot()), fin) || old(doc) == terminal then Done else Conflict
    {
      if pid == "" {
        return Refused;
      }
      if processor == Some(pid) && epoch == at && resumable && lease.Some? && lease.value > now &&
         doc.status == expected
      {
        doc := terminal;
        resumable := false;
        lease := None;
        return Done;
      }
      if doc == terminal {
        return Done;
      }
      return Conflict;
    }

    /** The request has an entry, terminal or open. */
    ghost predicate HasEntry(rid: RequestId, terminal: bool)
      reads this
    {
      var i := IndexOf(entries, rid);
      i.Some? && (terminal <==> entries[i.value].status == EntryCompleted || entries[i.value].status == EntryFailed)
    }

    /** Only the entry of one request changed, and that to e. */
    twostate predicate OnlyEntry(rid: RequestId, e: Entry)
      reads this
    {
      var i := IndexOf(old(entries), rid);
      i.Some? && entries == old(entries)[i.value := e]
    }

    function EntryOf(rid: RequestId): Entry
      reads this
      requires IndexOf(entries, rid).Some?
    {
      entries[IndexOf(entries, rid).value]
    }

    method EntryNotUpdatable(pid: ProcessorId, at: nat, rid: RequestId) returns (r: Outcome)
      ensures r == AlreadyTerminal <==>
                processor == Some(pid) && epoch == at && HasEntry(rid, true)
      ensures r == if Duplicate(Snapshot(), pid, at, rid) then AlreadyTerminal else Conflict
    {
      var i := IndexOf(entries, rid);
      if i.None? || processor != Some(pid) || epoch != at {
        return Conflict;
      }
      if entries[i.value].Terminal() {
        return AlreadyTerminal;
      }
      return Conflict;
    }

    /** Counts a dispatch of an open entry and names who submitted it, under the fence. */
    method MarkEntryInFlight(rid: RequestId, pid: ProcessorId, at: nat) returns (r: Outcome)
      modifies `entries
      ensures r == Done <==> old(Held(pid, at) && HasEntry(rid, false))
      ensures r == Done ==>
                var e := old(EntryOf(rid));
                OnlyEntry(rid, e.(status := InFlight, attempts := e.attempts + 1, submittedBy := Some(pid)))
      ensures r != Done ==> entries == old(entries)
      ensures var mark := Mark(pid, at, rid);
              && Snapshot() == Exec(old(Snapshot()), mark)
              && r == if Applies(old(Snapshot()), mark) then Done
                      else if Duplicate(old(Snapshot()), pid, at, rid) then AlreadyTerminal else Conflict
    {
      var i := IndexOf(entries, rid);
      if Owned(pid, at) && i.Some? && !entries[i.value].Terminal() {
        var e := entries[i.value];
        entries := entries[i.value := e.(status := InFlight, attempts := e.attempts + 1, submittedBy := Some(pid))];
        return Done;
      }
      r := EntryNotUpdatable(pid, at, rid);
    }

    /** Commits a terminal result to an open entry, under the fence. */
    method CheckpointEntryResult(rid: RequestId, pid: ProcessorId, at: nat, result: EntryResult)
      returns (r: Outcome)
      modifies `entries
      ensures r == Refused <==> result.status == Pending || result.status == InFlight
      ensures r == Done <==>
                && (result.status == EntryCompleted || result.status == EntryFailed)
                && old(Held(pid, at) && HasEntry(rid, false))
      ensures r == Done ==>
                OnlyEntry(rid, old(EntryOf(rid)).(status := result.status, result := Some(result.meta),
                                                  errorCode := result.errorCode))
      ensures r != Done ==> entries == old(entries)
      ensures var commit := Checkpoint(pid, at, rid, result);
              && Snapshot() == Exec(old(Snapshot()), commit)
              && r == if result.status != EntryCompleted && result.status != EntryFailed then Refused
                      else if Applies(old(Snapshot()), commit) then Done
                      else if Duplicate(old(Snapshot()), pid, at, rid) then AlreadyTerminal else Conflict
    {
      if result.status != EntryCompleted && result.status != EntryFailed {
        return Refused;
      }
      var i := IndexOf(entries, rid);
      if Owned(pid, at) && i.Some? && !entries[i.value].Terminal() {
        var e := entries[i.value];
        entries := entries[i.value :=
          e.(status := result.status, result := Some(result.meta), errorCode := result.errorCode)];
        return Done;
      }
      r := EntryNotUpdatable(pid, at, rid);
    }

    /** The generic status update: fenced on the epoch only when one is given or the
        epoch is to be bumped. */
    method DBUpdate(write: StatusWrite) returns (r: Outcome)
      modifies `doc, `epoch
      ensures r == Done <==>
                && (old(epoch) == write.epoch || (write.epoch == 0 && !write.bump))
                && (write.expectedDoc == None || write.expectedDoc == Some(old(doc)))
                && (write.expectedResumable == None || write.expectedResumable == Some(resumable))
      ensures r == Done ==> doc == write.doc && epoch == old(epoch) + if write.bump then 1 else 0
      ensures r != Done ==> unchanged(this)
      ensures r == if Applies(old(Snapshot()), UpdateStatus(write)) then Done else Conflict
      ensures Snapshot() == Exec(old(Snapshot()), UpdateStatus(write))
    {
      if (write.epoch > 0 || write.bump) && epoch != write.epoch {
        return Conflict;
      }
      if write.expectedDoc.Some? && doc != write.expectedDoc.value {
        return Conflict;
      }
      if write.expectedResumable.Some? && resumable != write.expectedResumable.value {
        return Conflict;
      }
      doc := write.doc;
      if write.bump {
        epoch := epoch + 1;
      }
      return Done;
    }

    /** Only the counts change, and only of an unfinished row at that epoch. */
    method DBUpdateProgress(at: nat, counts: Counts) returns (r: Outcome)
      modifies `doc
      ensures r == Done <==> epoch == at && !IsTerminal(old(doc).status)
      ensures doc == if r == Done then old(doc).(counts := counts) else old(doc)
      ensures r == if Applies(old(Snapshot()), UpdateProgress(at, counts)) then Done else Conflict
      ensures Snapshot() == Exec(old(Snapshot()), UpdateProgress(at, counts))
    {
      if IsTerminal(doc.status) || epoch != at {
        return Conflict;
      }
      doc := doc.(counts := counts);
      return Done;
    }

    method HasOpenEntryByRequest(rid: RequestId) returns (open: bool)
      ensures open <==> exists i :: 0 <= i < |entries| && entries[i].requestId == rid && !entries[i].Terminal()
    {
      for i := 0 to |entries|
        invariant forall k :: 0 <= k < i ==> entries[k].requestId == rid ==> entries[k].Terminal()
      {
        if entries[i].requestId == rid && !entries[i].Terminal() {
          return true;
        }
      }
      return false;
    }
  }
}
