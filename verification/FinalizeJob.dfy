/** The two ways an owner terminalizes an activated batch: after execution, announced and
    with every entry terminal; or without resuming it, with unexecuted entries rendered
    as error lines. Other actors' statements may run between any two of its effects. */
module FinalizeJob {
  import opened BatchTypes
  import opened Statements
  import opened Artifacts
  import Ownership
  import Integrity
  import Finalizer
  import BatchStore
  import System

  datatype Finish = Finished | NotAnnounced | NotAssembled | Fenced

  /** The terminal document: the row's document with the new status, the counts and the
      file ids of the assembly. */
  function TerminalDoc(doc: StatusDoc, status: BatchStatus, since: nat, a: Finalizer.Assembly): StatusDoc
    requires a.Assembled?
  {
    doc.(status := status, since := since, counts := a.counts, outputFile := a.outputFile, errorFile := a.errorFile)
  }

  function Announcement(doc: StatusDoc, since: nat, epoch: nat): StatusWrite {
    StatusWrite(doc.(status := Finalizing, since := since), epoch, false, None, Some(true))
  }

  // ---- what other actors cannot change ----

  lemma {:induction false} IdentitiesStay(db: Db, run: seq<Stmt>, k: nat, i: nat)
    requires k <= |run| && i < |db.entries|
    ensures |Ownership.At(db, run, k).entries| == |db.entries|
    ensures Ownership.At(db, run, k).entries[i].ordinal == db.entries[i].ordinal
    ensures db.entries[i].Terminal() ==> Ownership.At(db, run, k).entries[i] == db.entries[i]
  {
    Ownership.FirstResultWins(db, run, 0, k, i);
  }

  lemma AscendingStays(db: Db, run: seq<Stmt>)
    requires |db.entries| > 0 && Ascending(db.entries)
    ensures Ascending(Ownership.At(db, run, |run|).entries) && |Ownership.At(db, run, |run|).entries| > 0
  {
    var n := Ownership.At(db, run, |run|).entries;
    IdentitiesStay(db, run, |run|, 0);
    forall i, j | 0 <= i < j < |n| ensures n[i].ordinal < n[j].ordinal {
      IdentitiesStay(db, run, |run|, i);
      IdentitiesStay(db, run, |run|, j);
    }
  }

  lemma TerminalStays(db: Db, run: seq<Stmt>)
    requires |db.entries| > 0 && AllTerminal(db.entries)
    ensures Ownership.At(db, run, |run|).entries == db.entries
  {
    var n := Ownership.At(db, run, |run|).entries;
    IdentitiesStay(db, run, |run|, 0);
    forall i | 0 <= i < |n| ensures n[i] == db.entries[i] {
      IdentitiesStay(db, run, |run|, i);
    }
  }

  /** The row and its artifacts after a finalization that assembled the given entries. */
  ghost predicate Recorded(doc: StatusDoc, store: Finalizer.ArtifactStore, batch: string, entries: seq<Entry>,
                           results: map<ResultKey, Bytes>, render: Renderer, code: string)
    reads store
  {
    var files := Finalizer.FilesOf(entries, results, render, code);
    && doc.counts == CountsOf(entries)
    && doc.outputFile == Finalizer.FileOf(FileId(batch, OutputFile), files.out)
    && doc.errorFile == Finalizer.FileOf(FileId(batch, ErrorFile), files.err)
    && store.Holds(FileId(batch, OutputFile), files.out) && store.Holds(FileId(batch, ErrorFile), files.err)
  }

  /** A batch with entries has an artifact. */
  lemma SomeFile(entries: seq<Entry>, results: map<ResultKey, Bytes>, render: Renderer, code: string)
    requires |entries| > 0
    ensures var files := Finalizer.FilesOf(entries, results, render, code); files.out.Some? || files.err.Some?
  {
    OneLineEach(entries, results, render, code);
  }

  /** The terminal write's fence: the row is owned at the epoch under a running lease,
      activated, and in the status the finalizer believes it to be in. */
  predicate FinalFence(db: Db, pid: ProcessorId, epoch: nat, expected: BatchStatus) {
    && pid != "" && db.row.processor == Some(pid) && db.row.epoch == epoch && db.row.resumable
    && db.row.lease.Some? && db.now < db.row.lease.value && db.row.doc.status == expected
  }

  /** The artifacts can be assembled: nothing is open that must not be, every result is
      intact, and nothing stored contradicts. */
  ghost predicate Ready(store: Finalizer.ArtifactStore, batch: string, entries: seq<Entry>,
                        results: map<ResultKey, Bytes>, render: Renderer, code: string)
    reads store
  {
    && (code == "" ==> AllTerminal(entries))
    && Integrity.EntriesIntact(entries, results)
    && Finalizer.Compatible(store, batch, Finalizer.FilesOf(entries, results, render, code))
  }

  /** The row as the fenced write leaves it: only the document, the flag and the lease
      change, and if the document was already there, nothing does. */
  predicate Released(met: Db, n: Db, fenced: bool) {
    if fenced then n == met.(row := met.row.(doc := n.row.doc, resumable := false, lease := None)) else n == met
  }

  /** The fenced terminal write, after whatever others did; a lost fence is still a success
      if the row already holds the very document. */
  method WriteTerminal(rows: BatchStore.ResumableStore, pid: ProcessorId, epoch: nat, expected: BatchStatus,
                       terminal: StatusDoc, race: seq<Stmt>)
    returns (r: Finish)
    modifies rows
    ensures var met := Ownership.At(old(rows.Snapshot()), race, |race|);
            var fenced := FinalFence(met, pid, epoch, expected);
            && r == (if fenced || (pid != "" && met.row.doc == terminal) then Finished else Fenced)
            && (r == Finished ==> rows.doc == terminal && Released(met, rows.Snapshot(), fenced))
            && (r == Fenced ==> rows.Snapshot() == met)
  {
    rows.Interleave(race);
    var written := rows.FinalizeResumableBatch(pid, epoch, expected, terminal);
    return if written == BatchStore.Done then Finished else Fenced;
  }

  /** Assembly and the fenced terminal write, the shared tail of both ways. It finishes if
      the artifacts can be assembled, it lives long enough, and the fence holds at the
      write; success means the row holds a document that records exactly the entries
      assembled; any failure leaves the row to whatever others made of it. */
  method Terminalize(rows: BatchStore.ResumableStore, store: Finalizer.ArtifactStore, batch: string,
                     results: map<ResultKey, Bytes>, render: Renderer, code: string, pid: ProcessorId, epoch: nat,
                     doc: StatusDoc, expected: BatchStatus, status: BatchStatus, since: nat, crash: nat, race: seq<Stmt>)
    returns (r: Finish)
    requires |rows.entries| > 0 && Ascending(rows.entries)
    modifies rows, store
    ensures r == Finished || r == NotAssembled || r == Fenced
    ensures r == NotAssembled ==> rows.Snapshot() == old(rows.Snapshot())
    ensures r == NotAssembled ==> crash < 4 || !old(Ready(store, batch, rows.entries, results, render, code))
    ensures r != NotAssembled ==> old(Ready(store, batch, rows.entries, results, render, code))
    ensures var met := Ownership.At(old(rows.Snapshot()), race, |race|);
            && (r == Fenced ==> rows.Snapshot() == met && !FinalFence(met, pid, epoch, expected))
            && (r == Finished ==> Released(met, rows.Snapshot(), FinalFence(met, pid, epoch, expected)))
    ensures r == Fenced && pid != "" ==>
              !(rows.doc.status == status && rows.doc.since == since &&
                Recorded(rows.doc, store, batch, old(rows.entries), results, render, code))
    ensures r == Finished ==>
              && rows.doc.status == status && rows.doc.since == since && NamesFile(rows.doc)
              && Recorded(rows.doc, store, batch, old(rows.entries), results, render, code)
    ensures r == Finished ==>
              && Finalizer.HoldsExactly(store, FileId(batch, OutputFile), rows.doc.outputFile, old(rows.entries), results,
                                        render, code, InOutput)
              && Finalizer.HoldsExactly(store, FileId(batch, ErrorFile), rows.doc.errorFile, old(rows.entries), results,
                                        render, code, InError)
  {
    var assembled :=
      Finalizer.AssembleResumableArtifacts(store, batch, rows.entries, results, render, code, crash);
    if !assembled.Assembled? {
      return NotAssembled;
    }
    SomeFile(rows.entries, results, render, code);
    r := WriteTerminal(rows, pid, epoch, expected, TerminalDoc(doc, status, since, assembled), race);
  }

  /** The announcement is accepted on an activated row at the epoch, or at any epoch if
      none is given. */
  predicate Announceable(row: Row, epoch: nat) {
    row.resumable && (epoch == 0 || row.epoch == epoch)
  }

  /** The row after the announcement, with what others did before it. */
  function Announced(db: Db, doc: StatusDoc, since: nat, epoch: nat, before: seq<Stmt>): Db {
    Exec(Ownership.At(db, before, |before|), UpdateStatus(Announcement(doc, since, epoch)))
  }

  /** The row is owned at the epoch, activated and under a running lease. */
  predicate HeldBy(db: Db, pid: ProcessorId, epoch: nat) {
    FinalFence(db, pid, epoch, db.row.doc.status)
  }

  /** An accepted announcement changes the document alone and leaves the owner's fence. */
  lemma AnnouncementKeepsFence(met: Db, doc: StatusDoc, since: nat, pid: ProcessorId, epoch: nat)
    ensures var n := Exec(met, UpdateStatus(Announcement(doc, since, epoch)));
            && (Announceable(met.row, epoch) ==>
                  n == met.(row := met.row.(doc := doc.(status := Finalizing, since := since))))
            && (!Announceable(met.row, epoch) ==> n == met)
            && (HeldBy(met, pid, epoch) ==> Announceable(met.row, epoch) && FinalFence(n, pid, epoch, Finalizing))
  {}

  /** The announcement, so that the API server refuses cancels from here on. */
  method Announce(rows: BatchStore.ResumableStore, doc: StatusDoc, since: nat, epoch: nat, before: seq<Stmt>)
    returns (ok: bool)
    requires |rows.entries| > 0 && Ascending(rows.entries)
    modifies rows
    ensures ok <==> Announceable(Ownership.At(old(rows.Snapshot()), before, |before|).row, epoch)
    ensures rows.Snapshot() == Announced(old(rows.Snapshot()), doc, since, epoch, before)
    ensures |rows.entries| > 0 && Ascending(rows.entries)
  {
    AscendingStays(rows.Snapshot(), before);
    rows.Interleave(before);
    var announced := rows.DBUpdate(Announcement(doc, since, epoch));
    ok := announced == BatchStore.Done;
  }

  /** The completed path: announced under the epoch and the activated flag, assembled with
      every entry terminal, and then written as completed, or as cancelled if a cancel
      arrived meanwhile. Every entry is then terminal for good and counted once. It does
      finish if the announcement is accepted, the artifacts can be assembled, it lives
      long enough and the fence holds at the write, as it does for the owner of a running
      lease if nobody interferes. */
  method FinalizeResumableJob(rows: BatchStore.ResumableStore, store: Finalizer.ArtifactStore, batch: string,
                              results: map<ResultKey, Bytes>, render: Renderer, pid: ProcessorId, epoch: nat,
                              doc: StatusDoc, cancelled: bool, since: nat, crash: nat,
                              before: seq<Stmt>, race: seq<Stmt>)
    returns (r: Finish)
    requires |rows.entries| > 0 && Ascending(rows.entries)
    modifies rows, store
    ensures r == NotAnnounced <==> !Announceable(Ownership.At(old(rows.Snapshot()), before, |before|).row, epoch)
    ensures r == NotAnnounced || r == NotAssembled ==>
              rows.Snapshot() == Announced(old(rows.Snapshot()), doc, since, epoch, before)
    ensures var db := Announced(old(rows.Snapshot()), doc, since, epoch, before);
            var met := Ownership.At(db, race, |race|);
            && (r == NotAssembled ==> crash < 4 || !old(Ready(store, batch, db.entries, results, render, "")))
            && (r == Fenced ==> rows.Snapshot() == met && !FinalFence(met, pid, epoch, Finalizing))
            && (r == Finished ==> Released(met, rows.Snapshot(), FinalFence(met, pid, epoch, Finalizing)))
    ensures var met := Ownership.At(old(rows.Snapshot()), before, |before|);
            race == [] && crash >= 4 && old(Ready(store, batch, met.entries, results, render, "")) && HeldBy(met, pid, epoch)
            ==> r == Finished
    ensures r == Finished ==>
              && rows.doc.status == (if cancelled then Cancelled else Completed)
              && AllTerminal(rows.entries)
              && Recorded(rows.doc, store, batch, rows.entries, results, render, "")
  {
    AnnouncementKeepsFence(Ownership.At(rows.Snapshot(), before, |before|), doc, since, pid, epoch);
    var ok := Announce(rows, doc, since, epoch, before);
    if !ok {
      return NotAnnounced;
    }
    ghost var db := rows.Snapshot();
    r := Terminalize(rows, store, batch, results, render, "", pid, epoch, Announcement(doc, since, epoch).doc, Finalizing,
                     if cancelled then Cancelled else Completed, since, crash, race);
    if r == Finished {
      TerminalStays(db, race);
    }
  }

  // ---- a resumed pickup that must not resume ----

  const BATCH_CANCELLED := "batch_cancelled"
  const BATCH_EXPIRED := "batch_expired"
  const BATCH_FAILED := "batch_failed"

  /** The status a pickup is routed to, and the code of its unexecuted entries. */
  function Terminus(item: System.Item, expired: bool): (BatchStatus, string) {
    if item.doc.status == Cancelling then (Cancelled, BATCH_CANCELLED)
    else if expired then (Expired, BATCH_EXPIRED)
    else (Failed, BATCH_FAILED)
  }

  /** A pickup beyond the budget, past its deadline or being cancelled ends the batch with
      what there is: every entry counted, the unexecuted ones as errors with the code of
      the reason. It does so if the artifacts can be assembled and the row is still as the
      pickup read it; any other pickup is left to execute. */
  method RouteResumedPickup(rows: BatchStore.ResumableStore, store: Finalizer.ArtifactStore, batch: string,
                            results: map<ResultKey, Bytes>, render: Renderer, item: System.Item, pid: ProcessorId,
                            expired: bool, since: nat, crash: nat, race: seq<Stmt>)
    returns (routed: bool, r: Finish)
    requires |rows.entries| > 0 && Ascending(rows.entries)
    modifies rows, store
    ensures routed <==> item.doc.status == Cancelling || expired || item.attempts > 3
    ensures !routed ==> rows.Snapshot() == old(rows.Snapshot()) && store.objects == old(store.objects)
    ensures var (status, code) := Terminus(item, expired);
            var fence := FinalFence(Ownership.At(old(rows.Snapshot()), race, |race|), pid, item.epoch, item.doc.status);
            && (routed && old(Ready(store, batch, rows.entries, results, render, code)) && crash >= 4 && fence ==> r == Finished)
            && (routed && r == Fenced ==> !fence)
            && (routed && r == Finished ==>
                  rows.doc.status == status && Recorded(rows.doc, store, batch, old(rows.entries), results, render, code))
  {
    var route := System.RoutePickup(item, expired);
    if route.None? {
      return false, NotAnnounced;
    }
    var (status, code) := Terminus(item, expired);
    r := Terminalize(rows, store, batch, results, render, code, pid, item.epoch, item.doc, item.doc.status, route.value,
                     since, crash, race);
    routed := true;
  }
}
