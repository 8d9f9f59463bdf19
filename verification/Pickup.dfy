/** What a processor does with a row that is not activated, right after it claimed it from
    the queue or at startup and read it back. Both are runs of the system model, and they
    are where a terminal status can be overwritten. */
module Pickup {
  import opened BatchTypes
  import opened Statements
  import System
  import BatchStore
  import Ownership

  datatype Action = Launch | Skip | MarkExpired | MarkCancelled | MarkFailed | PutBack

  predicate Marks(a: Action) {
    a == MarkExpired || a == MarkCancelled || a == MarkFailed
  }

  /** A task from the queue: its deadline counts before anything the row says. */
  function FreshAction(status: BatchStatus, expired: bool): (a: Action)
    ensures a == MarkExpired <==> expired
    ensures a == Launch <==> !expired && (status == Validating || status == InProgress)
    ensures a == MarkCancelled <==> !expired && status == Cancelling
    ensures a != PutBack && a != MarkFailed
  {
    if expired then MarkExpired
    else if status == Validating || status == InProgress then Launch
    else if status == Cancelling then MarkCancelled
    else Skip
  }

  /** A claim at startup: beyond the recovery budget it fails the row whatever it says. */
  function StartupAction(attempts: nat, status: BatchStatus, expired: bool): (a: Action)
    ensures a == MarkFailed <==> attempts > 3 || (!IsTerminal(status) && status != Validating)
    ensures a == MarkExpired <==> attempts <= 3 && status == Validating && expired
    ensures a == PutBack <==> attempts <= 3 && status == Validating && !expired
    ensures a != Launch && a != MarkCancelled
  {
    if attempts > 3 then MarkFailed
    else match status
      case Validating => if expired then MarkExpired else PutBack
      case InProgress => MarkFailed
      case Finalizing => MarkFailed
      case Cancelling => MarkFailed
      case _ => Skip
  }

  /** What was read as terminal is written over by an expired task from the queue, by a
      startup claim beyond the budget, and by nothing else. */
  lemma TerminalReadOverwrittenIff(attempts: nat, status: BatchStatus, expired: bool)
    requires IsTerminal(status)
    ensures Marks(FreshAction(status, expired)) <==> expired
    ensures Marks(StartupAction(attempts, status, expired)) <==> attempts > 3
    ensures FreshAction(status, expired) != Launch && StartupAction(attempts, status, expired) != PutBack
  {}

  function MarkOf(a: Action): BatchStatus
    requires Marks(a)
  {
    match a
    case MarkExpired => Expired
    case MarkCancelled => Cancelled
    case MarkFailed => Failed
  }

  /** The plain write of a mark: fenced on the epoch that was read; a failed one also
      compares the whole document. */
  function PlainWrite(item: System.Item, a: Action, since: nat): StatusWrite
    requires Marks(a)
  {
    StatusWrite(item.doc.(status := MarkOf(a), since := since), item.epoch, false,
                if a == MarkFailed then Some(item.doc) else None, None)
  }

  /** The row may still be written: it is at the epoch that was read, and for a failed mark
      it has the document that was read. */
  predicate Writable(row: Row, item: System.Item, a: Action) {
    (item.epoch == 0 || row.epoch == item.epoch) && (a == MarkFailed ==> row.doc == item.doc)
  }

  /** The row may still be put back: owned as it was read, validating and not activated. */
  predicate Requeueable(row: Row, item: System.Item) {
    && item.processor.Some? && item.processor.value != "" && row.processor == item.processor
    && row.epoch == item.epoch && row.doc.status == Validating && !row.resumable
  }

  method Carry(rows: BatchStore.ResumableStore, item: System.Item, a: Action, since: nat) returns (r: BatchStore.Outcome)
    modifies rows
    ensures var was, row := old(rows.Snapshot()), old(rows.Snapshot()).row;
            && (Marks(a) ==>
                  if Writable(row, item, a)
                  then r == BatchStore.Done && rows.Snapshot() == was.(row := row.(doc := item.doc.(status := MarkOf(a), since := since)))
                  else r == BatchStore.Conflict && rows.Snapshot() == was)
            && (a == PutBack ==>
                  if Requeueable(row, item)
                  then r == BatchStore.Done &&
                       rows.Snapshot() == was.(row := row.(processor := None, epoch := row.epoch + 1))
                  else r != BatchStore.Done && rows.Snapshot() == was)
            && (!Marks(a) && a != PutBack ==> rows.Snapshot() == was)
  {
    r := BatchStore.Done;
    if Marks(a) {
      r := rows.DBUpdate(PlainWrite(item, a, since));
    } else if a == PutBack {
      r := rows.PQEnqueue(if item.processor.Some? then item.processor.value else "", item.epoch, Validating);
    }
  }

  /** A fresh pickup, with what others do between its read and its write. */
  method PickUpFresh(rows: BatchStore.ResumableStore, item: System.Item, expired: bool, since: nat, race: seq<Stmt>)
    returns (a: Action, r: BatchStore.Outcome)
    modifies rows
    ensures a == FreshAction(item.doc.status, expired)
    ensures var met := Ownership.At(old(rows.Snapshot()), race, |race|);
            && (!Marks(a) || !Writable(met.row, item, a) ==> rows.Snapshot() == met)
            && (Marks(a) && Writable(met.row, item, a) ==> rows.doc.status == MarkOf(a) && rows.epoch == met.row.epoch)
  {
    rows.Interleave(race);
    a := FreshAction(item.doc.status, expired);
    r := Carry(rows, item, a, since);
  }

  /** A startup claim of a row that is not activated, likewise. */
  method RecoverOwned(rows: BatchStore.ResumableStore, attempts: nat, item: System.Item, expired: bool, since: nat,
                      race: seq<Stmt>)
    returns (a: Action, r: BatchStore.Outcome)
    modifies rows
    ensures a == StartupAction(attempts, item.doc.status, expired)
    ensures var met := Ownership.At(old(rows.Snapshot()), race, |race|);
            && (Marks(a) && Writable(met.row, item, a) ==> rows.doc.status == MarkOf(a) && rows.epoch == met.row.epoch)
            && (Marks(a) && !Writable(met.row, item, a) ==> rows.Snapshot() == met)
            && (a == Skip ==> rows.Snapshot() == met)
            && (a == PutBack ==>
                  if Requeueable(met.row, item)
                  then rows.processor == None && rows.epoch == item.epoch + 1 && rows.doc.status == Validating
                  else rows.Snapshot() == met)
  {
    rows.Interleave(race);
    a := StartupAction(attempts, item.doc.status, expired);
    r := Carry(rows, item, a, since);
  }

  // ---- as runs of the system ----

  /** A run that holds what it read and has not acted on it. */
  predicate Holds(s: System.Sys, i: nat, item: System.Item, origin: System.Origin) {
    i < |s.runs| && s.runs[i].item == Some(item) && s.runs[i].origin == origin && System.LegacyOpen(s.runs[i])
  }

  lemma WriteIsAStep(s: System.Sys, i: nat, item: System.Item, a: Action, since: nat)
    requires Marks(a) && i < |s.runs| && s.runs[i].item == Some(item) && System.LegacyOpen(s.runs[i])
    requires a == MarkFailed ==> s.runs[i].origin == System.Exhausted || !IsTerminal(item.doc.status)
    requires a != MarkFailed ==> System.PlainStatus(s.runs[i], MarkOf(a))
    ensures var w := PlainWrite(item, a, since);
            var step := System.Job(if a == MarkFailed then System.LegacyFail(i, w.doc) else System.LegacyWrite(i, w.doc));
            System.Enabled(s, step) && System.Apply(s, step).db == Exec(s.db, UpdateStatus(w))
  {}

  /** A startup claim of a row that is not activated knows from the attempts it gets back
      whether it is beyond the budget. */
  lemma ClaimKnowsBudget(s: System.Sys, pid: ProcessorId)
    requires System.Enabled(s, System.Job(System.Claims(pid))) && !s.db.row.resumable
    ensures var n := System.Apply(s, System.Job(System.Claims(pid)));
            && |n.runs| == |s.runs| + 1 && n.runs[..|s.runs|] == s.runs
            && var r := n.runs[|s.runs|];
               && r.pid == pid && r.claim == n.db.row.epoch && !r.resumed && r.item.None? && System.LegacyOpen(r)
               && r.origin == if n.db.row.attempts > 3 then System.Exhausted else System.AtStartup
  {}

  /** Whatever a fresh pickup writes is a step of the system, so every theorem about all
      runs covers it. */
  lemma FreshPickupIsARun(s: System.Sys, i: nat, item: System.Item, expired: bool, since: nat)
    requires Holds(s, i, item, System.FromQueue) && Marks(FreshAction(item.doc.status, expired))
    ensures var w := PlainWrite(item, FreshAction(item.doc.status, expired), since);
            var step := System.Job(System.LegacyWrite(i, w.doc));
            System.Enabled(s, step) && System.Apply(s, step).db == Exec(s.db, UpdateStatus(w))
  {
    WriteIsAStep(s, i, item, FreshAction(item.doc.status, expired), since);
  }

  /** So is whatever a startup claim writes. */
  lemma StartupPickupIsARun(s: System.Sys, i: nat, item: System.Item, attempts: nat, expired: bool, since: nat)
    requires Holds(s, i, item, if attempts > 3 then System.Exhausted else System.AtStartup)
    requires Marks(StartupAction(attempts, item.doc.status, expired))
    ensures var a := StartupAction(attempts, item.doc.status, expired);
            var w := PlainWrite(item, a, since);
            var step := System.Job(if a == MarkFailed then System.LegacyFail(i, w.doc) else System.LegacyWrite(i, w.doc));
            System.Enabled(s, step) && System.Apply(s, step).db == Exec(s.db, UpdateStatus(w))
  {
    WriteIsAStep(s, i, item, StartupAction(attempts, item.doc.status, expired), since);
  }
}
