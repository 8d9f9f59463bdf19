/** The checkpointer drains results into the result store; its progress counts refine
    the entry set, and it acknowledges a delivery only once it is accounted for. */
module Checkpointer {
  import opened BatchTypes
  import opened Statements
  import opened System
  import opened Pending
  import Ownership
  import BatchStore
  import ResultStore
  import Delivery

  // ---- counting entries ----

  lemma {:induction false} TallySame(a: seq<Entry>, b: seq<Entry>, status: EntryStatus)
    requires |a| == |b| && forall i :: 0 <= i < |a| ==> (a[i].status == status <==> b[i].status == status)
    ensures Tally(a, status) == Tally(b, status)
  {
    if |a| > 0 {
      TallySame(a[..|a| - 1], b[..|b| - 1], status);
    }
  }

  lemma {:induction false} TallyUpdate(a: seq<Entry>, i: nat, e: Entry, status: EntryStatus)
    requires i < |a| && a[i].status != status
    ensures Tally(a[i := e], status) == Tally(a, status) + if e.status == status then 1 else 0
  {
    var last := |a| - 1;
    if i == last {
      assert a[i := e][..last] == a[..last];
    } else {
      assert a[i := e][..last] == a[..last][i := e];
      TallyUpdate(a[..last], i, e, status);
    }
  }

  lemma {:induction false} TallyBounded(a: seq<Entry>)
    ensures Tally(a, EntryCompleted) + Tally(a, EntryFailed) <= |a|
  {
    if |a| > 0 {
      TallyBounded(a[..|a| - 1]);
    }
  }

  // ---- counts against the database ----

  /** The counts never exceed the entry set's; while the run holds the row and has
      seen no persistence error they equal it. */
  ghost predicate CountsRefine(db: Db, pid: ProcessorId, epoch: nat, completed: nat, failed: nat, clean: bool) {
    && |db.entries| > 0 && epoch <= db.row.epoch
    && (db.row.epoch == epoch ==> db.row.processor == Some(pid))
    && completed <= Tally(db.entries, EntryCompleted) && failed <= Tally(db.entries, EntryFailed)
    && (clean && db.row.epoch == epoch ==>
          completed == Tally(db.entries, EntryCompleted) && failed == Tally(db.entries, EntryFailed))
  }

  /** Any statement but a checkpoint of this very run. */
  predicate Foreign(s: Stmt, pid: ProcessorId, epoch: nat) {
    s.Checkpoint? ==> s.pid != pid || s.epoch != epoch
  }

  lemma TallyStep(db: Db, s: Stmt, status: EntryStatus)
    requires |db.entries| > 0 && (status == EntryCompleted || status == EntryFailed)
    ensures var n := Exec(db, s);
            && |n.entries| == |db.entries|
            && Tally(db.entries, status) <= Tally(n.entries, status)
            && (!(s.Checkpoint? && Applies(db, s)) ==> Tally(n.entries, status) == Tally(db.entries, status))
  {
    var n := Exec(db, s);
    if s.Checkpoint? && Applies(db, s) {
      var i := IndexOf(db.entries, s.rid).value;
      TallyUpdate(db.entries, i, Checkpointed(db.entries[i], s.result), status);
    } else {
      TallySame(db.entries, n.entries, status);
    }
  }

  lemma ForeignStep(db: Db, s: Stmt, pid: ProcessorId, epoch: nat, completed: nat, failed: nat, clean: bool)
    requires CountsRefine(db, pid, epoch, completed, failed, clean) && Foreign(s, pid, epoch)
    ensures CountsRefine(Exec(db, s), pid, epoch, completed, failed, clean)
  {
    Ownership.StepEpoch(db, s);
    TallyStep(db, s, EntryCompleted);
    TallyStep(db, s, EntryFailed);
  }

  lemma {:induction false} ForeignRun(db: Db, others: seq<Stmt>, k: nat, pid: ProcessorId, epoch: nat,
                                      completed: nat, failed: nat, clean: bool)
    requires k <= |others| && CountsRefine(db, pid, epoch, completed, failed, clean)
    requires forall i :: 0 <= i < |others| ==> Foreign(others[i], pid, epoch)
    ensures CountsRefine(Ownership.At(db, others, k), pid, epoch, completed, failed, clean)
  {
    if k > 0 {
      ForeignRun(db, others, k - 1, pid, epoch, completed, failed, clean);
      ForeignStep(Ownership.At(db, others, k - 1), others[k - 1], pid, epoch, completed, failed, clean);
    }
  }

  /** A commit that took effect is one more entry of its status. */
  lemma CommitCounts(db: Db, pid: ProcessorId, epoch: nat, rid: RequestId, r: EntryResult,
                     completed: nat, failed: nat)
    requires CountsRefine(db, pid, epoch, completed, failed, true)
    requires Applies(db, Statements.Checkpoint(pid, epoch, rid, r))
    ensures CountsRefine(Exec(db, Statements.Checkpoint(pid, epoch, rid, r)), pid, epoch,
                         if r.status == EntryCompleted then completed + 1 else completed,
                         if r.status == EntryCompleted then failed else failed + 1, true)
  {
    var i := IndexOf(db.entries, rid).value;
    TallyUpdate(db.entries, i, Checkpointed(db.entries[i], r), EntryCompleted);
    TallyUpdate(db.entries, i, Checkpointed(db.entries[i], r), EntryFailed);
  }

  /** The same commit when its reply was lost: the counts fall behind, never ahead. */
  lemma CommitUncounted(db: Db, s: Stmt, pid: ProcessorId, epoch: nat, completed: nat, failed: nat, clean: bool)
    requires CountsRefine(db, pid, epoch, completed, failed, clean)
    ensures CountsRefine(Exec(db, s), pid, epoch, completed, failed, false)
  {
    Ownership.StepEpoch(db, s);
    TallyStep(db, s, EntryCompleted);
    TallyStep(db, s, EntryFailed);
  }

  // ---- seeding ----

  function Rejected(manifest: seq<ManifestEntry>): nat {
    if |manifest| == 0 then 0
    else Rejected(manifest[..|manifest| - 1]) + if manifest[|manifest| - 1].rejected then 1 else 0
  }

  lemma {:induction false} ActivationTally(manifest: seq<ManifestEntry>)
    ensures Tally(ActivationEntries(manifest), EntryFailed) == Rejected(manifest)
    ensures Tally(ActivationEntries(manifest), EntryCompleted) == 0
  {
    if |manifest| > 0 {
      var front := manifest[..|manifest| - 1];
      ActivationTally(front);
      assert ActivationEntries(manifest)[..|front|] == ActivationEntries(front);
    }
  }

  /** A fresh run starts from the rejected lines: right at activation. */
  lemma FreshSeedRefines(db: Db, pid: ProcessorId, epoch: nat, ttl: int, manifest: seq<ManifestEntry>)
    requires Applies(db, Activate(pid, epoch, ttl, ActivationEntries(manifest)))
    ensures CountsRefine(Exec(db, Activate(pid, epoch, ttl, ActivationEntries(manifest))), pid, epoch,
                         0, Rejected(manifest), true)
  {
    ActivationTally(manifest);
    assert Exec(db, Activate(pid, epoch, ttl, ActivationEntries(manifest))).entries == ActivationEntries(manifest);
  }

  datatype ResumeSeed = ResumeSeed(
    pending: nat,
    inFlight: nat,
    completed: nat,
    failed: nat,
    terminalIds: seq<RequestId>,
    submitters: map<RequestId, ProcessorId>)

  /** The resume seed of an entry set: exact counts, exactly the terminal ids, and the
      submitter of every in-flight entry that has one. */
  method RecoverSeed(entries: seq<Entry>) returns (seed: ResumeSeed)
    requires DistinctRequests(entries)
    ensures seed.completed == Tally(entries, EntryCompleted) && seed.failed == Tally(entries, EntryFailed)
    ensures seed.pending == Tally(entries, Pending) && seed.inFlight == Tally(entries, InFlight)
    ensures forall i :: 0 <= i < |entries| ==> (entries[i].requestId in seed.terminalIds <==> entries[i].Terminal())
    ensures forall i :: 0 <= i < |entries| ==>
              (entries[i].requestId in seed.submitters <==> entries[i].status == InFlight && entries[i].submittedBy.Some?)
    ensures forall i :: 0 <= i < |entries| && entries[i].requestId in seed.submitters ==>
              Some(seed.submitters[entries[i].requestId]) == entries[i].submittedBy
  {
    seed := ResumeSeed(0, 0, 0, 0, [], map[]);
    for i := 0 to |entries|
      invariant seed.completed == Tally(entries[..i], EntryCompleted) && seed.failed == Tally(entries[..i], EntryFailed)
      invariant seed.pending == Tally(entries[..i], Pending) && seed.inFlight == Tally(entries[..i], InFlight)
      invariant forall id :: id in seed.terminalIds <==> TerminalIn(entries[..i], id)
      invariant forall id :: id in seed.submitters <==> SubmittedIn(entries[..i], id)
      invariant forall k :: 0 <= k < i && entries[k].requestId in seed.submitters ==>
                  Some(seed.submitters[entries[k].requestId]) == entries[k].submittedBy
    {
      var e := entries[i];
      assert entries[..i + 1][..i] == entries[..i];
      TerminalInExtends(entries, i);
      SubmittedInExtends(entries, i);
      match e.status {
        case EntryCompleted =>
          seed := seed.(completed := seed.completed + 1, terminalIds := seed.terminalIds + [e.requestId]);
        case EntryFailed =>
          seed := seed.(failed := seed.failed + 1, terminalIds := seed.terminalIds + [e.requestId]);
        case InFlight =>
          seed := seed.(inFlight := seed.inFlight + 1);
          if e.submittedBy.Some? {
            seed := seed.(submitters := seed.submitters[e.requestId := e.submittedBy.value]);
          }
        case Pending =>
          seed := seed.(pending := seed.pending + 1);
      }
    }
    assert entries[..|entries|] == entries;
  }

  ghost predicate TerminalIn(entries: seq<Entry>, id: RequestId) {
    exists i :: 0 <= i < |entries| && entries[i].requestId == id && entries[i].Terminal()
  }

  ghost predicate SubmittedIn(entries: seq<Entry>, id: RequestId) {
    exists i :: 0 <= i < |entries| && entries[i].requestId == id && entries[i].status == InFlight &&
                entries[i].submittedBy.Some?
  }

  lemma TerminalInExtends(entries: seq<Entry>, i: nat)
    requires i < |entries|
    ensures forall id :: TerminalIn(entries[..i + 1], id) <==>
              TerminalIn(entries[..i], id) || (entries[i].requestId == id && entries[i].Terminal())
  {
    assert entries[..i + 1] == entries[..i] + [entries[i]];
  }

  lemma SubmittedInExtends(entries: seq<Entry>, i: nat)
    requires i < |entries|
    ensures forall id :: SubmittedIn(entries[..i + 1], id) <==>
              SubmittedIn(entries[..i], id) ||
              (entries[i].requestId == id && entries[i].status == InFlight && entries[i].submittedBy.Some?)
  {
    assert entries[..i + 1] == entries[..i] + [entries[i]];
  }

  // ---- draining ----

  /** A transient persistence failure: before anything was stored, or of the reply to
      a commit that may have been applied. */
  datatype Fault = NoFault | Unstored | ReplyLost

  /** One result on the channel, with what other actors do before it is looked up and
      while it is being stored. */
  datatype Message = Message(
    result: ResultItem,
    line: Bytes,
    status: EntryStatus,
    code: string,
    delivery: Option<nat>,
    before: seq<Stmt>,
    race: seq<Stmt>,
    windows: ResultStore.Windows,
    fault: Fault)
  {
    predicate Valid(pid: ProcessorId, epoch: nat) {
      && (status == EntryCompleted || status == EntryFailed)
      && (forall i :: 0 <= i < |before| ==> Foreign(before[i], pid, epoch))
      && (forall i :: 0 <= i < |race| ==> Foreign(race[i], pid, epoch))
    }
  }

  /** What became of one message. */
  datatype Handling = NotOurs | Ignored | Counted | Dropped | LostOwnership | NotPersisted

  predicate Settled(h: Handling) {
    h == Counted || h == Dropped
  }

  predicate Failing(h: Handling) {
    h == LostOwnership || h == NotPersisted
  }

  datatype DrainResult = Drained | OwnershipConflict | PersistenceFailure

  lemma {:induction false} RunIsLater(db: Db, others: seq<Stmt>, k: nat)
    requires k <= |others|
    ensures Delivery.Later(db, Ownership.At(db, others, k))
  {
    if k > 0 {
      RunIsLater(db, others, k - 1);
      Delivery.ExecIsLater(Ownership.At(db, others, k - 1), others[k - 1]);
    }
  }

  /** The requests and the deliveries of the messages that were accounted for. */
  function SettledIds(msgs: seq<Message>, handled: seq<Handling>): set<RequestId>
    requires |handled| <= |msgs|
  {
    set i | 0 <= i < |handled| && Settled(handled[i]) :: msgs[i].result.id
  }

  function SettledDeliveries(msgs: seq<Message>, handled: seq<Handling>): set<nat>
    requires |handled| <= |msgs|
  {
    set i | 0 <= i < |handled| && Settled(handled[i]) && msgs[i].delivery.Some? :: msgs[i].delivery.value
  }

  /** One failure, and nothing is accounted for after it. */
  ghost predicate Sticky(handled: seq<Handling>) {
    && (forall i, j :: 0 <= i < j < |handled| && Failing(handled[i]) ==> handled[j] == NotOurs || handled[j] == Ignored)
    && (forall j :: 0 <= j < |handled| && handled[j] == Ignored ==> exists i :: 0 <= i < j && Failing(handled[i]))
  }

  /** How the drain ends, from what became of its messages. */
  predicate Ends(r: DrainResult, handled: seq<Handling>) {
    && (r == OwnershipConflict <==> LostOwnership in handled)
    && (r == PersistenceFailure <==> NotPersisted in handled)
  }

  lemma HandledExtends(msgs: seq<Message>, handled: seq<Handling>, h: Handling)
    requires |handled| < |msgs|
    ensures var msg := msgs[|handled|];
            && SettledIds(msgs, handled + [h]) ==
               SettledIds(msgs, handled) + (if Settled(h) then {msg.result.id} else {})
            && SettledDeliveries(msgs, handled + [h]) ==
               SettledDeliveries(msgs, handled) +
               (if Settled(h) && msg.delivery.Some? then {msg.delivery.value} else {})
  {
    var all := handled + [h];
    forall id | id in SettledIds(msgs, handled) ensures id in SettledIds(msgs, all) {
      var i :| 0 <= i < |handled| && Settled(handled[i]) && msgs[i].result.id == id;
      assert Settled(all[i]);
    }
    forall d | d in SettledDeliveries(msgs, handled) ensures d in SettledDeliveries(msgs, all) {
      var i :| 0 <= i < |handled| && Settled(handled[i]) && msgs[i].delivery == Some(d);
      assert Settled(all[i]);
    }
    assert all[|handled|] == h;
  }

  lemma StickyExtends(handled: seq<Handling>, h: Handling, r: DrainResult)
    requires Sticky(handled) && Ends(r, handled)
    requires r != Drained ==> h == NotOurs || h == Ignored
    requires r == Drained ==> h != Ignored
    ensures Sticky(handled + [h])
    ensures Ends(if r != Drained then r else if h == LostOwnership then OwnershipConflict
                 else if h == NotPersisted then PersistenceFailure else Drained, handled + [h])
  {
    var all := handled + [h];
    assert all[|handled|] == h;
    assert forall x :: x in all <==> x in handled || x == h;
    if r != Drained {
      var i :| 0 <= i < |handled| && Failing(handled[i]);
      assert Failing(all[i]);
    }
    forall j | 0 <= j < |handled| && all[j] == Ignored ensures exists i :: 0 <= i < j && Failing(all[i]) {
      var i :| 0 <= i < j && Failing(handled[i]);
      assert Failing(all[i]);
    }
  }

  /** Every accounted message's entry is terminal. */
  ghost predicate SettledTerminal(db: Db, msgs: seq<Message>, handled: seq<Handling>)
    requires |handled| <= |msgs|
  {
    forall i :: 0 <= i < |handled| && Settled(handled[i]) ==> EntryTerminal(db, msgs[i].result.id)
  }

  lemma SettledTerminalExtends(db: Db, n: Db, msgs: seq<Message>, handled: seq<Handling>, h: Handling)
    requires |handled| < |msgs| && SettledTerminal(db, msgs, handled) && Delivery.Later(db, n)
    requires Settled(h) ==> EntryTerminal(n, msgs[|handled|].result.id)
    ensures SettledTerminal(n, msgs, handled + [h])
  {}

  /** A result passed over is of no request that is pending, and brings no metadata. */
  ghost predicate OthersOnly(m: map<RequestId, RequestItem>, msgs: seq<Message>, handled: seq<Handling>)
    requires |handled| <= |msgs|
  {
    forall i :: 0 <= i < |handled| && handled[i] == NotOurs ==> !Accepts(m, msgs[i].result)
  }

  lemma OthersExtend(m: map<RequestId, RequestItem>, n: map<RequestId, RequestItem>, msgs: seq<Message>,
                     handled: seq<Handling>, h: Handling)
    requires |handled| < |msgs| && OthersOnly(m, msgs, handled) && n.Keys <= m.Keys
    requires h == NotOurs ==> !Accepts(m, msgs[|handled|].result)
    ensures OthersOnly(n, msgs, handled + [h])
  {}

  /** What was pending and acknowledged at first, and is now. */
  ghost predicate Books(m0: map<RequestId, RequestItem>, acked0: set<nat>, m: map<RequestId, RequestItem>,
                        acked: set<nat>, msgs: seq<Message>, handled: seq<Handling>)
  {
    && |handled| <= |msgs|
    && m == m0 - SettledIds(msgs, handled)
    && acked == acked0 + SettledDeliveries(msgs, handled)
  }

  lemma BooksExtend(m0: map<RequestId, RequestItem>, acked0: set<nat>, m: map<RequestId, RequestItem>,
                    acked: set<nat>, msgs: seq<Message>, handled: seq<Handling>, h: Handling)
    requires Books(m0, acked0, m, acked, msgs, handled) && |handled| < |msgs|
    ensures var msg := msgs[|handled|];
            Books(m0, acked0, if Settled(h) then m - {msg.result.id} else m,
                  acked + (if Settled(h) && msg.delivery.Some? then {msg.delivery.value} else {}),
                  msgs, handled + [h])
  {
    HandledExtends(msgs, handled, h);
  }

  // ---- when a message is counted, dropped or lost ----

  /** The entry was not terminal at the lookup, and after the race the run still holds the
      row and the entry is still open. */
  predicate Commits(met: Db, msg: Message, pid: ProcessorId, epoch: nat) {
    var mid := ResultStore.Raced(met, msg.race);
    !EntryTerminal(met, msg.result.id) && OwnerFence(mid, pid, epoch) && OpenEntry(mid, msg.result.id)
  }

  /** The entry was terminal at the lookup, or is after the race on a row that is still
      this run's. */
  predicate Duplicates(met: Db, msg: Message, pid: ProcessorId, epoch: nat) {
    var mid := ResultStore.Raced(met, msg.race);
    || EntryTerminal(met, msg.result.id)
    || (EntryTerminal(mid, msg.result.id) && mid.row.processor == Some(pid) && mid.row.epoch == epoch)
  }

  /** The verdict on a message: not persisted if and only if there was a fault, and without
      one counted, dropped or lost exactly as the entry and the fence say. */
  predicate Judged(met: Db, msg: Message, pid: ProcessorId, epoch: nat, h: Handling) {
    && (h == NotPersisted <==> msg.fault != NoFault)
    && (msg.fault == NoFault ==>
          && (h == Counted <==> Commits(met, msg, pid, epoch))
          && (h == Dropped <==> Duplicates(met, msg, pid, epoch))
          && (h == LostOwnership <==> !Commits(met, msg, pid, epoch) && !Duplicates(met, msg, pid, epoch)))
  }

  /** The entry has the message's status and code, and its object is the line. */
  predicate ResultIn(db: Db, objects: map<ResultKey, Bytes>, msg: Message) {
    var i := IndexOf(db.entries, msg.result.id);
    && i.Some?
    && var e := db.entries[i.value];
       && e.status == msg.status && e.errorCode == msg.code && e.result.Some?
       && e.result.value.key.request == msg.result.id && e.result.value.key in objects
       && objects[e.result.value.key] == msg.line
       && e.result.value.size == |msg.line| && e.result.value.digest == Sha256(msg.line)
  }

  /** The rows after a message: a commit of it whether or not its reply arrives, and
      otherwise only what others did. */
  ghost predicate Effect(met: Db, n: Db, msg: Message, pid: ProcessorId, epoch: nat) {
    if msg.fault == Unstored || EntryTerminal(met, msg.result.id) then n == met
    else if Commits(met, msg, pid, epoch) then CommittedFrom(ResultStore.Raced(met, msg.race), n, msg, pid, epoch)
    else n == ResultStore.Raced(met, msg.race)
  }

  lemma CommitPutsResult(mid: Db, n: Db, objects: map<ResultKey, Bytes>, msg: Message, pid: ProcessorId, epoch: nat,
                         key: ResultKey)
    requires key in objects && objects[key] == msg.line && key.request == msg.result.id
    requires var commit := Statements.Checkpoint(pid, epoch, msg.result.id,
                                                 EntryResult(msg.status, MetaOf(key, msg.line), msg.code));
             Applies(mid, commit) && n == Exec(mid, commit)
    ensures ResultIn(n, objects, msg) && CommittedFrom(mid, n, msg, pid, epoch)
  {
    var i := IndexOf(mid.entries, msg.result.id).value;
    SameIndex(mid.entries, n.entries, msg.result.id);
    assert n.entries[i].requestId == msg.result.id;
  }

  /** The position of a request depends on the request ids alone. */
  lemma {:induction false} SameIndex(a: seq<Entry>, b: seq<Entry>, rid: RequestId)
    requires |a| == |b| && forall i :: 0 <= i < |a| ==> a[i].requestId == b[i].requestId
    ensures IndexOf(a, rid) == IndexOf(b, rid)
  {
    if |a| > 0 {
      SameIndex(a[..|a| - 1], b[..|b| - 1], rid);
    }
  }

  /** A lost reply hides the outcome of the commit. */
  function HandlingOf(fault: Fault, outcome: BatchStore.Outcome): Handling {
    if fault != NoFault then NotPersisted
    else if outcome == BatchStore.Done then Counted
    else if outcome == BatchStore.AlreadyTerminal then Dropped
    else LostOwnership
  }

  /** The verdict and its effect depend on the result's id alone. */
  lemma SameVerdict(met: Db, n: Db, objects: map<ResultKey, Bytes>, msg: Message, result: ResultItem,
                    pid: ProcessorId, epoch: nat, h: Handling)
    requires result.id == msg.result.id
    requires Judged(met, msg.(result := result), pid, epoch, h) && Effect(met, n, msg.(result := result), pid, epoch)
    ensures Judged(met, msg, pid, epoch, h) && Effect(met, n, msg, pid, epoch)
    ensures Commits(met, msg.(result := result), pid, epoch) == Commits(met, msg, pid, epoch)
    ensures ResultIn(n, objects, msg.(result := result)) == ResultIn(n, objects, msg)
  {}

  // ---- a whole drain, message by message ----

  ghost predicate Stepped(db: Db, n: Db, msg: Message, h: Handling, pid: ProcessorId, epoch: nat) {
    var met := ResultStore.Raced(db, msg.before);
    if h == NotOurs || h == Ignored then n == met else Judged(met, msg, pid, epoch, h) && Effect(met, n, msg, pid, epoch)
  }

  /** The states between the messages. */
  ghost predicate Traced(states: seq<Db>, msgs: seq<Message>, handled: seq<Handling>, pid: ProcessorId, epoch: nat) {
    && |handled| <= |msgs| && |states| == |handled| + 1
    && forall i :: 0 <= i < |handled| ==> Stepped(states[i], states[i + 1], msgs[i], handled[i], pid, epoch)
  }

  lemma TracedExtends(states: seq<Db>, msgs: seq<Message>, handled: seq<Handling>, pid: ProcessorId, epoch: nat,
                      n: Db, h: Handling)
    requires Traced(states, msgs, handled, pid, epoch) && |handled| < |msgs|
    requires Stepped(states[|handled|], n, msgs[|handled|], h, pid, epoch)
    ensures Traced(states + [n], msgs, handled + [h], pid, epoch)
  {}

  /** No fault, the entry is there, and the run holds the row after each race. */
  ghost predicate Smooth(states: seq<Db>, msgs: seq<Message>, handled: seq<Handling>, pid: ProcessorId, epoch: nat)
    requires |handled| <= |msgs| && |handled| <= |states|
  {
    forall i :: 0 <= i < |handled| && handled[i] != NotOurs ==>
      && msgs[i].fault == NoFault
      && var met := ResultStore.Raced(states[i], msgs[i].before);
         var mid := ResultStore.Raced(met, msgs[i].race);
         OwnerFence(mid, pid, epoch) && IndexOf(mid.entries, msgs[i].result.id).Some?
  }

  /** Only a fault makes a drain fail to persist, and a smooth one ends without error. */
  lemma DrainFails(states: seq<Db>, msgs: seq<Message>, handled: seq<Handling>, r: DrainResult,
                   pid: ProcessorId, epoch: nat)
    requires Traced(states, msgs, handled, pid, epoch) && Sticky(handled) && Ends(r, handled)
    ensures r == PersistenceFailure ==> exists i :: 0 <= i < |handled| && handled[i] == NotPersisted && msgs[i].fault != NoFault
    ensures Smooth(states, msgs, handled, pid, epoch) ==> r == Drained
  {
    forall i | 0 <= i < |handled| ensures handled[i] == NotPersisted ==> msgs[i].fault != NoFault {
      assert Stepped(states[i], states[i + 1], msgs[i], handled[i], pid, epoch);
    }
    if Smooth(states, msgs, handled, pid, epoch) {
      forall i | 0 <= i < |handled| ensures !Failing(handled[i]) {
        assert Stepped(states[i], states[i + 1], msgs[i], handled[i], pid, epoch);
      }
    }
  }

  class ResultCheckpointer {
    const sink: ResultStore.BatchResultStore
    const pending: PendingRequests
    var completed: nat
    var failed: nat
    var acked: set<nat>

    constructor (sink: ResultStore.BatchResultStore, pending: PendingRequests, completed: nat, failed: nat)
      ensures this.sink == sink && this.pending == pending && acked == {}
      ensures this.completed == completed && this.failed == failed
    {
      this.sink, this.pending := sink, pending;
      this.completed, this.failed, acked := completed, failed, {};
    }

    ghost predicate Refines(clean: bool)
      reads `completed, `failed, sink.entries
    {
      CountsRefine(sink.entries.Snapshot(), sink.pid, sink.epoch, completed, failed, clean)
    }

    /** Stores and commits one result. A commit makes the counts one behind, of its
        status; anything else leaves them right. */
    method Commit(msg: Message) returns (outcome: BatchStore.Outcome)
      requires msg.Valid(sink.pid, sink.epoch) && sink.files.Valid() && Refines(true)
      modifies sink.files, sink.entries
      ensures sink.files.Valid()
      ensures outcome == BatchStore.Done || outcome == BatchStore.AlreadyTerminal || outcome == BatchStore.Conflict
      ensures outcome == BatchStore.Done ==> Refines(false) && OneMore(sink.entries.Snapshot(), msg.status)
      ensures outcome != BatchStore.Done ==> Refines(true)
      ensures outcome != BatchStore.Conflict ==> EntryTerminal(sink.entries.Snapshot(), msg.result.id)
      ensures Delivery.Later(old(sink.entries.Snapshot()), sink.entries.Snapshot())
      ensures outcome == BatchStore.Done <==> Commits(old(sink.entries.Snapshot()), msg, sink.pid, sink.epoch)
      ensures outcome == BatchStore.AlreadyTerminal <==> Duplicates(old(sink.entries.Snapshot()), msg, sink.pid, sink.epoch)
      ensures Effect(old(sink.entries.Snapshot()), sink.entries.Snapshot(), msg.(fault := NoFault), sink.pid, sink.epoch)
      ensures outcome == BatchStore.Done ==> ResultIn(sink.entries.Snapshot(), sink.files.objects, msg)
    {
      ghost var db := sink.entries.Snapshot();
      ghost var mid := ResultStore.Raced(db, msg.race);
      ForeignRun(db, msg.race, |msg.race|, sink.pid, sink.epoch, completed, failed, true);
      RunIsLater(db, msg.race, |msg.race|);
      ghost var mine;
      outcome, mine := sink.Checkpoint(msg.result.id, msg.line, msg.status, msg.code, msg.race, msg.windows);
      if outcome == BatchStore.Done {
        ghost var key :| key in sink.files.objects && sink.files.objects[key] == msg.line && key.request == msg.result.id &&
          sink.entries.Snapshot() ==
          Exec(mid, Statements.Checkpoint(sink.pid, sink.epoch, msg.result.id,
                                          EntryResult(msg.status, MetaOf(key, msg.line), msg.code)));
        CommitPutsResult(mid, sink.entries.Snapshot(), sink.files.objects, msg, sink.pid, sink.epoch, key);
        LostCommit(mid, sink.entries.Snapshot(), msg, sink.pid, sink.epoch, completed, failed);
        AppliedCommit(mid, sink.entries.Snapshot(), msg, sink.pid, sink.epoch, completed, failed);
      }
    }

    /** The counts that refine the database are one more of the given status. */
    ghost predicate OneMore(db: Db, status: EntryStatus)
      reads `completed, `failed
    {
      CountsRefine(db, sink.pid, sink.epoch, if status == EntryCompleted then completed + 1 else completed,
                   if status == EntryCompleted then failed else failed + 1, true)
    }

    /** Resolves a message that was accounted for, and counts one that was committed. */
    method Account(msg: Message, h: Handling)
      requires msg.status == EntryCompleted || msg.status == EntryFailed
      modifies pending, `completed, `failed
      ensures pending.m == if Settled(h) then old(pending.m) - {msg.result.id} else old(pending.m)
      ensures completed == old(completed) + if h == Counted && msg.status == EntryCompleted then 1 else 0
      ensures failed == old(failed) + if h == Counted && msg.status == EntryFailed then 1 else 0
    {
      if Settled(h) {
        var _, _ := pending.Resolve(msg.result);
      }
      if h == Counted {
        if msg.status == EntryCompleted {
          completed := completed + 1;
        } else {
          failed := failed + 1;
        }
      }
    }

    /** Commits one result, then resolves and counts it. */
    method Checkpoint(msg: Message) returns (h: Handling)
      requires msg.Valid(sink.pid, sink.epoch) && sink.files.Valid() && Refines(true)
      modifies sink.files, sink.entries, pending, `completed, `failed
      ensures sink.files.Valid() && Refines(!Failing(h))
      ensures Settled(h) || Failing(h)
      ensures Settled(h) ==> EntryTerminal(sink.entries.Snapshot(), msg.result.id)
      ensures pending.m == if Settled(h) then old(pending.m) - {msg.result.id} else old(pending.m)
      ensures Delivery.Later(old(sink.entries.Snapshot()), sink.entries.Snapshot())
      ensures Judged(old(sink.entries.Snapshot()), msg, sink.pid, sink.epoch, h)
      ensures Effect(old(sink.entries.Snapshot()), sink.entries.Snapshot(), msg, sink.pid, sink.epoch)
      ensures msg.fault == Unstored ==> sink.files.objects == old(sink.files.objects)
      ensures msg.fault != Unstored && Commits(old(sink.entries.Snapshot()), msg, sink.pid, sink.epoch) ==>
                ResultIn(sink.entries.Snapshot(), sink.files.objects, msg)
      ensures completed == old(completed) + if h == Counted && msg.status == EntryCompleted then 1 else 0
      ensures failed == old(failed) + if h == Counted && msg.status == EntryFailed then 1 else 0
    {
      if msg.fault == Unstored {
        return NotPersisted;
      }
      var outcome := Commit(msg);
      h := HandlingOf(msg.fault, outcome);
      Account(msg, h);
    }

    method CheckpointEnriched(msg: Message, enriched: ResultItem) returns (h: Handling)
      requires enriched.id == msg.result.id
      requires msg.Valid(sink.pid, sink.epoch) && sink.files.Valid() && Refines(true)
      modifies sink.files, sink.entries, pending, `completed, `failed
      ensures sink.files.Valid() && Refines(!Failing(h))
      ensures Settled(h) || Failing(h)
      ensures Settled(h) ==> EntryTerminal(sink.entries.Snapshot(), msg.result.id)
      ensures pending.m == if Settled(h) then old(pending.m) - {msg.result.id} else old(pending.m)
      ensures Delivery.Later(old(sink.entries.Snapshot()), sink.entries.Snapshot())
      ensures Judged(old(sink.entries.Snapshot()), msg, sink.pid, sink.epoch, h)
      ensures Effect(old(sink.entries.Snapshot()), sink.entries.Snapshot(), msg, sink.pid, sink.epoch)
      ensures h == Counted ==> ResultIn(sink.entries.Snapshot(), sink.files.objects, msg)
    {
      ghost var met := sink.entries.Snapshot();
      h := Checkpoint(msg.(result := enriched));
      SameVerdict(met, sink.entries.Snapshot(), sink.files.objects, msg, enriched, sink.pid, sink.epoch, h);
    }

    method Acknowledge(msg: Message, h: Handling)
      modifies `acked
      ensures acked == old(acked) + if Settled(h) && msg.delivery.Some? then {msg.delivery.value} else {}
    {
      if Settled(h) && msg.delivery.Some? {
        acked := acked + {msg.delivery.value};
      }
    }

    /** What others do before a message is looked up keeps the counts right. */
    method Meet(msg: Message, clean: bool)
      requires msg.Valid(sink.pid, sink.epoch) && Refines(clean)
      modifies sink.entries
      ensures Refines(clean) && sink.entries.Snapshot() == ResultStore.Raced(old(sink.entries.Snapshot()), msg.before)
      ensures Delivery.Later(old(sink.entries.Snapshot()), sink.entries.Snapshot())
    {
      ForeignRun(sink.entries.Snapshot(), msg.before, |msg.before|, sink.pid, sink.epoch, completed, failed, clean);
      RunIsLater(sink.entries.Snapshot(), msg.before, |msg.before|);
      sink.entries.Interleave(msg.before);
    }

    /** One message off the channel: whatever others did first, then this job's
        verdict on it, and its acknowledgement only once it is accounted for. */
    method Handle(msg: Message, stuck: bool) returns (h: Handling)
      requires msg.Valid(sink.pid, sink.epoch) && sink.files.Valid() && Refines(!stuck)
      modifies sink.files, sink.entries, pending, this
      ensures sink.files.Valid() && Refines(!stuck && !Failing(h))
      ensures h == NotOurs <==> !Accepts(old(pending.m), msg.result)
      ensures h == Ignored <==> stuck && Accepts(old(pending.m), msg.result)
      ensures Stepped(old(sink.entries.Snapshot()), sink.entries.Snapshot(), msg, h, sink.pid, sink.epoch)
      ensures h == Counted ==> ResultIn(sink.entries.Snapshot(), sink.files.objects, msg)
      ensures Settled(h) ==> EntryTerminal(sink.entries.Snapshot(), msg.result.id)
      ensures pending.m == if Settled(h) then old(pending.m) - {msg.result.id} else old(pending.m)
      ensures acked == old(acked) + if Settled(h) && msg.delivery.Some? then {msg.delivery.value} else {}
      ensures Delivery.Later(old(sink.entries.Snapshot()), sink.entries.Snapshot())
    {
      Meet(msg, !stuck);
      var ours, enriched := pending.Enrich(msg.result);
      if !ours {
        return NotOurs;
      }
      if stuck {
        return Ignored;
      }
      h := CheckpointEnriched(msg, enriched);
      Acknowledge(msg, h);
    }

    /** The drain loop. It reads to the end whatever happens, accounts for nothing
        after the first error, passes over only what is not its own, acknowledges and
        resolves exactly what it accounted for, and its counts equal the entry set's as
        long as the run holds the row. Every message gets the verdict that its fault, its
        entry and the fence call for, so it fails to persist only on a fault, and ends
        without error if there is none and the run holds the row throughout. */
    method Drain(msgs: seq<Message>) returns (r: DrainResult, handled: seq<Handling>, ghost states: seq<Db>)
      requires forall i :: 0 <= i < |msgs| ==> msgs[i].Valid(sink.pid, sink.epoch)
      requires sink.files.Valid() && Refines(true)
      modifies sink.files, sink.entries, pending, this
      ensures sink.files.Valid() && Refines(r == Drained)
      ensures |handled| == |msgs| && Sticky(handled) && Ends(r, handled)
      ensures SettledTerminal(sink.entries.Snapshot(), msgs, handled) && OthersOnly(pending.m, msgs, handled)
      ensures Books(old(pending.m), old(acked), pending.m, acked, msgs, handled)
      ensures Traced(states, msgs, handled, sink.pid, sink.epoch)
      ensures states[0] == old(sink.entries.Snapshot()) && states[|msgs|] == sink.entries.Snapshot()
      ensures r == PersistenceFailure ==> exists i :: 0 <= i < |msgs| && handled[i] == NotPersisted && msgs[i].fault != NoFault
      ensures Smooth(states, msgs, handled, sink.pid, sink.epoch) ==> r == Drained
    {
      handled, states := [], [sink.entries.Snapshot()];
      r := Drained;
      while |handled| < |msgs|
        invariant |handled| <= |msgs| && sink.files.Valid() && Refines(r == Drained)
        invariant Sticky(handled) && Ends(r, handled)
        invariant SettledTerminal(sink.entries.Snapshot(), msgs, handled) && OthersOnly(pending.m, msgs, handled)
        invariant Books(old(pending.m), old(acked), pending.m, acked, msgs, handled)
        invariant Traced(states, msgs, handled, sink.pid, sink.epoch)
        invariant states[0] == old(sink.entries.Snapshot()) && states[|handled|] == sink.entries.Snapshot()
      {
        ghost var db, m, a := sink.entries.Snapshot(), pending.m, acked;
        var h := Handle(msgs[|handled|], r != Drained);
        BooksExtend(old(pending.m), old(acked), m, a, msgs, handled, h);
        SettledTerminalExtends(db, sink.entries.Snapshot(), msgs, handled, h);
        OthersExtend(m, pending.m, msgs, handled, h);
        StickyExtends(handled, h, r);
        TracedExtends(states, msgs, handled, sink.pid, sink.epoch, sink.entries.Snapshot(), h);
        if r == Drained {
          r := if h == LostOwnership then OwnershipConflict else if h == NotPersisted then PersistenceFailure else Drained;
        }
        handled, states := handled + [h], states + [sink.entries.Snapshot()];
      }
      DrainFails(states, msgs, handled, r, sink.pid, sink.epoch);
    }
  }

  /** Counted results never exceed the requests there are. */
  lemma CountsWithinTotal(db: Db, pid: ProcessorId, epoch: nat, completed: nat, failed: nat, clean: bool)
    requires CountsRefine(db, pid, epoch, completed, failed, clean)
    ensures completed + failed <= |db.entries|
  {
    TallyBounded(db.entries);
  }

  /** n is mid with the message's result committed under some key. */
  ghost predicate CommittedFrom(mid: Db, n: Db, msg: Message, pid: ProcessorId, epoch: nat) {
    exists meta ::
      var commit := Statements.Checkpoint(pid, epoch, msg.result.id, EntryResult(msg.status, meta, msg.code));
      Applies(mid, commit) && n == Exec(mid, commit)
  }

  lemma AppliedCommit(mid: Db, n: Db, msg: Message, pid: ProcessorId, epoch: nat, completed: nat, failed: nat)
    requires CountsRefine(mid, pid, epoch, completed, failed, true) && CommittedFrom(mid, n, msg, pid, epoch)
    ensures CountsRefine(n, pid, epoch, if msg.status == EntryCompleted then completed + 1 else completed,
                         if msg.status == EntryCompleted then failed else failed + 1, true)
    ensures EntryTerminal(n, msg.result.id)
  {
    var meta :|
      var commit := Statements.Checkpoint(pid, epoch, msg.result.id, EntryResult(msg.status, meta, msg.code));
      Applies(mid, commit) && n == Exec(mid, commit);
    CommitCounts(mid, pid, epoch, msg.result.id, EntryResult(msg.status, meta, msg.code), completed, failed);
    Delivery.RequestStable(mid, Statements.Checkpoint(pid, epoch, msg.result.id, EntryResult(msg.status, meta, msg.code)),
                           msg.result.id);
  }

  lemma LostCommit(mid: Db, n: Db, msg: Message, pid: ProcessorId, epoch: nat, completed: nat, failed: nat)
    requires CountsRefine(mid, pid, epoch, completed, failed, true) && CommittedFrom(mid, n, msg, pid, epoch)
    ensures CountsRefine(n, pid, epoch, completed, failed, false) && Delivery.Later(mid, n)
  {
    var meta :|
      var commit := Statements.Checkpoint(pid, epoch, msg.result.id, EntryResult(msg.status, meta, msg.code));
      Applies(mid, commit) && n == Exec(mid, commit);
    CommitUncounted(mid, Statements.Checkpoint(pid, epoch, msg.result.id, EntryResult(msg.status, meta, msg.code)),
                    pid, epoch, completed, failed, true);
    Delivery.ExecIsLater(mid, Statements.Checkpoint(pid, epoch, msg.result.id, EntryResult(msg.status, meta, msg.code)));
  }
}
