/** What the durable pipeline promises its callers, put together from the invariants
    of the whole system. */
module Guarantees {
  import opened BatchTypes
  import opened Statements
  import opened System
  import Delivery
  import Integrity
  import Lifecycle
  import Manifest
  import Ownership
  import Artifacts
  import Finalizer
  import ResultStore

  /** No result is lost: an acknowledged delivery's entry is terminal and its recorded
      object is intact until a finalization has succeeded; so the delivery of an open
      entry is never acknowledged and stays redeliverable. */
  lemma NoResultLost(manifest: seq<ManifestEntry>, doc: StatusDoc, steps: seq<Step>, d: nat)
    ensures var s := After(Init(manifest, doc), steps);
            && (d in s.acked ==>
                  && d < |s.deliveries| && EntryTerminal(s.db, s.deliveries[d])
                  && var e := s.db.entries[IndexOf(s.db.entries, s.deliveries[d]).value];
                     !s.finalized ==> e.result.Some? && Intact(s.objects, e.result.value))
            && (d < |s.deliveries| && OpenEntry(s.db, s.deliveries[d]) ==> d !in s.acked)
  {
    Delivery.DeliveryAlways(manifest, doc, steps);
    Integrity.StoreAlways(manifest, doc, steps);
  }

  // ---- and every delivery can be settled ----

  lemma AfterJoins(s: Sys, a: seq<Step>, b: seq<Step>)
    ensures After(s, a + b) == After(After(s, a), b)
    decreases |b|
  {
    if |b| == 0 {
      assert a + b == a;
    } else {
      AfterJoins(s, a, b[..|b| - 1]);
      assert (a + b)[..|a + b| - 1] == a + b[..|b| - 1];
    }
  }

  lemma OneMore(s: Sys, step: Step)
    ensures After(s, [step]) == Apply(s, step)
  {
    assert [step][..0] == [];
  }

  /** Only an accounted call or a checked residue acknowledges, and nothing takes an
      acknowledgement back. */
  lemma AcknowledgedIff(s: Sys, step: Step, d: nat)
    ensures d in Apply(s, step).acked <==>
            || d in s.acked
            || (step == AckResidue(d) && d in s.cleared)
            || (step.Acknowledge? && step.call < |s.calls| && s.calls[step.call].phase == Accounted &&
                s.calls[step.call].source == Delivered(d))
  {
    if Enabled(s, step) && step.Job? {
      Delivery.JobFrame(s, step.job);
    }
  }

  lemma ResidueSettles(s: Sys, d: nat)
    requires d < |s.deliveries| && !OpenEntry(s.db, s.deliveries[d])
    ensures d in After(s, [CheckResidue(d)] + [AckResidue(d)]).acked
  {
    var checked := ResidueChecked(s, d);
    OneMore(s, CheckResidue(d));
    OneMore(checked, AckResidue(d));
    AfterJoins(s, [CheckResidue(d)], [AckResidue(d)]);
    AcknowledgedIff(checked, AckResidue(d), d);
  }

  lemma ResidueChecked(s: Sys, d: nat) returns (checked: Sys)
    requires d < |s.deliveries| && !OpenEntry(s.db, s.deliveries[d])
    ensures checked == Apply(s, CheckResidue(d)) && d in checked.cleared
  {
    checked := Apply(s, CheckResidue(d));
  }

  lemma CallSettlesDelivery(s: Sys, d: nat, c: Call) returns (more: seq<Step>)
    requires d < |s.deliveries| && d !in s.acked && OpenEntry(s.db, s.deliveries[d]) && OwnerFence(s.db, c.pid, c.epoch)
    requires c.rid == s.deliveries[d] && c.source == Delivered(d) && c.phase == Received && c.status == EntryCompleted
    requires forall k :: k in s.objects && k.Fallback? ==> k.uuid < s.uuid
    ensures d in After(s, more).acked
  {
    var i := |s.calls|;
    var begun := Apply(s, StartCall(c));
    OneMore(s, StartCall(c));
    assert begun.calls[i] == c && begun.db == s.db;
    ResultStore.OutcomeAlone(begun.db, c.pid, c.epoch, c.rid);
    var t, key := ResultStore.CallRefinesMethod(begun, i, true);
    assert t.calls[i].phase == Accounted;
    ResultStore.CallKeepsSource(begun, i, ResultStore.CallList(i, true));
    more := [StartCall(c)] + ResultStore.CallList(i, true) + [Acknowledge(i)];
    AfterJoins(s, [StartCall(c)], ResultStore.CallList(i, true));
    AfterJoins(s, [StartCall(c)] + ResultStore.CallList(i, true), [Acknowledge(i)]);
    OneMore(t, Acknowledge(i));
    AcknowledgedIff(t, Acknowledge(i), d);
  }

  /** The partner of no loss: in every reachable state, whatever crashed before, a delivery
      can still be acknowledged, at once if its entry is terminal, and by committing it if
      some processor holds the row. */
  lemma EveryDeliveryCanSettle(manifest: seq<ManifestEntry>, doc: StatusDoc, steps: seq<Step>, d: nat,
                               pid: ProcessorId, epoch: nat, line: Bytes)
    returns (more: seq<Step>)
    requires var s := After(Init(manifest, doc), steps);
             d < |s.deliveries| && (EntryTerminal(s.db, s.deliveries[d]) || OwnerFence(s.db, pid, epoch))
    ensures d in After(Init(manifest, doc), steps + more).acked
  {
    var s := After(Init(manifest, doc), steps);
    Delivery.DeliveryAlways(manifest, doc, steps);
    Integrity.StoreAlways(manifest, doc, steps);
    assert EntryMarked(s.db, s.deliveries[d]);
    if d in s.acked {
      more := [];
    } else if EntryTerminal(s.db, s.deliveries[d]) {
      more := [CheckResidue(d)] + [AckResidue(d)];
      ResidueSettles(s, d);
    } else {
      more := CallSettlesDelivery(s, d, Call(pid, epoch, s.deliveries[d], line, EntryCompleted, "", Delivered(d), Received));
    }
    AfterJoins(Init(manifest, doc), steps, more);
  }

  /** Store before commit: while a batch is not terminal, every terminal entry names an
      existing object with the recorded size and digest. */
  lemma UnfinishedBatchIntact(manifest: seq<ManifestEntry>, doc: StatusDoc, steps: seq<Step>)
    ensures var s := After(Init(manifest, doc), steps);
            !s.db.row.Terminal() ==> Integrity.EntriesIntact(s.db.entries, s.objects)
  {
    Integrity.StoreAlways(manifest, doc, steps);
    Lifecycle.FinalizedSettles(manifest, doc, steps);
  }

  /** The entry set lists in ordinal order what the input file listed. */
  lemma EntriesAscend(manifest: seq<ManifestEntry>, doc: StatusDoc, steps: seq<Step>)
    requires forall i, j :: 0 <= i < j < |manifest| ==> manifest[i].ordinal < manifest[j].ordinal
    ensures Artifacts.Ascending(After(Init(manifest, doc), steps).db.entries)
  {
    Manifest.DriftAlways(manifest, doc, steps);
    var entries := After(Init(manifest, doc), steps).db.entries;
    forall i, j | 0 <= i < j < |entries| ensures entries[i].ordinal < entries[j].ordinal {
      assert Manifest.Fits(entries[i], manifest[i]) && Manifest.Fits(entries[j], manifest[j]);
    }
  }

  lemma FrozenStep(db: Db, stmt: Stmt)
    requires |db.entries| > 0 && Artifacts.AllTerminal(db.entries)
    ensures Exec(db, stmt).entries == db.entries
  {
    forall i | 0 <= i < |db.entries|
      ensures |Exec(db, stmt).entries| == |db.entries| && Exec(db, stmt).entries[i] == db.entries[i]
    {
      Ownership.StepEntries(db, stmt, i);
    }
  }

  /** Once every entry is terminal the entry set never changes again. */
  lemma {:induction false} EntrySetFrozen(manifest: seq<ManifestEntry>, doc: StatusDoc, steps: seq<Step>, k: nat)
    requires k <= |steps|
    requires var e := After(Init(manifest, doc), steps[..k]).db.entries; |e| > 0 && Artifacts.AllTerminal(e)
    ensures After(Init(manifest, doc), steps).db.entries == After(Init(manifest, doc), steps[..k]).db.entries
    decreases |steps|
  {
    if k == |steps| {
      assert steps[..k] == steps;
    } else {
      var front := steps[..|steps| - 1];
      assert front[..k] == steps[..k];
      EntrySetFrozen(manifest, doc, front, k);
      var s := After(Init(manifest, doc), front);
      if Enabled(s, steps[|steps| - 1]) {
        FrozenStep(s.db, StmtOf(s, steps[|steps| - 1]));
      }
    }
  }

  /** So every incarnation that assembles from then on, from whatever state and with
      whatever not-executed code, derives the same two artifacts and counts, until
      one of them has finalized the batch. */
  lemma EveryIncarnationAgrees(manifest: seq<ManifestEntry>, doc: StatusDoc, steps: seq<Step>, k: nat,
                               render: Artifacts.Renderer, code: string, other: string)
    requires k <= |steps|
    requires var e := After(Init(manifest, doc), steps[..k]).db.entries; |e| > 0 && Artifacts.AllTerminal(e)
    requires !After(Init(manifest, doc), steps[..k]).finalized && !After(Init(manifest, doc), steps).finalized
    ensures var s, t := After(Init(manifest, doc), steps[..k]), After(Init(manifest, doc), steps);
            && Finalizer.FilesOf(s.db.entries, s.objects, render, code) ==
               Finalizer.FilesOf(t.db.entries, t.objects, render, other)
            && Artifacts.CountsOf(s.db.entries) == Artifacts.CountsOf(t.db.entries)
  {
    var s, t := After(Init(manifest, doc), steps[..k]), After(Init(manifest, doc), steps);
    EntrySetFrozen(manifest, doc, steps, k);
    Integrity.StoreAlways(manifest, doc, steps[..k]);
    Integrity.StoreAlways(manifest, doc, steps);
    Artifacts.ArtifactsFixed(s.db.entries, t.db.entries, s.objects, t.objects, render, code, other, OutputFile);
    Artifacts.ArtifactsFixed(s.db.entries, t.db.entries, s.objects, t.objects, render, code, other, ErrorFile);
  }

  lemma DistinctStep(db: Db, stmt: Stmt)
    requires DistinctRequests(db.entries)
    ensures DistinctRequests(Exec(db, stmt).entries)
  {
    var n := Exec(db, stmt).entries;
    if |db.entries| > 0 {
      forall i, j | 0 <= i < j < |n| ensures n[i].requestId != n[j].requestId {
        Ownership.StepEntries(db, stmt, i);
        Ownership.StepEntries(db, stmt, j);
      }
    }
  }

  /** A request has one entry. */
  lemma {:induction false} RequestsDistinct(manifest: seq<ManifestEntry>, doc: StatusDoc, steps: seq<Step>)
    ensures DistinctRequests(After(Init(manifest, doc), steps).db.entries)
  {
    if |steps| > 0 {
      RequestsDistinct(manifest, doc, steps[..|steps| - 1]);
      var s := After(Init(manifest, doc), steps[..|steps| - 1]);
      if Enabled(s, steps[|steps| - 1]) {
        DistinctStep(s.db, StmtOf(s, steps[|steps| - 1]));
      }
    }
  }

  // ---- and the system does get work done ----

  /** One line dispatched, its result delivered. */
  lemma ResultDelivered(m: ManifestEntry, doc: StatusDoc, p: ProcessorId) returns (s: Sys)
    requires Submitted(doc) && p != "" && !m.rejected
    ensures Lifecycle.Reachable([m], doc, s) && OwnerFence(s.db, p, 1) && s.calls == [] && s.objects == map[]
    ensures |s.db.entries| == 1 && s.db.entries[0].requestId == m.requestId && !s.db.entries[0].Terminal()
    ensures s.deliveries == [m.requestId] && s.acked == {} && Manifest.Holds(s)
  {
    s := Manifest.OneLineActivated(m, doc, p);
    assert OpenEntry(s.db, m.requestId) && IndexOf(s.db.entries, m.requestId) == Some(0);
    s := Lifecycle.ReachStep([m], doc, s, Issue(Mark(p, 1, m.requestId)));
    assert s.db.entries == [Marked(ActivationEntry(m), p)];
    s := Lifecycle.ReachStep([m], doc, s, Deliver(m.requestId));
  }

  /** The delivery's checkpoint call, its line stored. */
  lemma ResultStored(m: ManifestEntry, doc: StatusDoc, p: ProcessorId, c: Call) returns (s: Sys)
    requires Submitted(doc) && p != "" && !m.rejected
    requires c == Call(p, 1, m.requestId, c.line, EntryCompleted, "", Delivered(0), Received)
    ensures Lifecycle.Reachable([m], doc, s) && OwnerFence(s.db, p, 1)
    ensures |s.db.entries| == 1 && s.db.entries[0].requestId == m.requestId && !s.db.entries[0].Terminal()
    ensures s.calls == [c.(phase := Stored(Canonical(m.requestId)))] && s.acked == {} && Manifest.Holds(s)
  {
    s := ResultDelivered(m, doc, p);
    s := Lifecycle.ReachStep([m], doc, s, StartCall(c));
    s := Lifecycle.ReachStep([m], doc, s, OnCall(0, LookUp));
    s := Lifecycle.ReachStep([m], doc, s, OnCall(0, PutCanonical(false)));
  }

  lemma ResultCommitted(m: ManifestEntry, doc: StatusDoc, p: ProcessorId, c: Call) returns (s: Sys)
    requires Submitted(doc) && p != "" && !m.rejected
    requires c == Call(p, 1, m.requestId, c.line, EntryCompleted, "", Delivered(0), Received)
    ensures Lifecycle.Reachable([m], doc, s) && OwnerFence(s.db, p, 1)
    ensures |s.db.entries| == 1 && s.db.entries[0].status == EntryCompleted
    ensures s.calls == [c.(phase := Accounted)] && s.acked == {} && Manifest.Holds(s)
  {
    s := ResultStored(m, doc, p, c);
    assert IndexOf(s.db.entries, m.requestId) == Some(0);
    s := Lifecycle.ReachStep([m], doc, s, OnCall(0, Commit(false)));
  }

  lemma ResultAcknowledged(m: ManifestEntry, doc: StatusDoc, p: ProcessorId, c: Call) returns (s: Sys)
    requires Submitted(doc) && p != "" && !m.rejected
    requires c == Call(p, 1, m.requestId, c.line, EntryCompleted, "", Delivered(0), Received)
    ensures Lifecycle.Reachable([m], doc, s) && OwnerFence(s.db, p, 1)
    ensures |s.db.entries| == 1 && s.db.entries[0].status == EntryCompleted
    ensures s.acked == {0} && Manifest.Holds(s)
  {
    s := ResultCommitted(m, doc, p, c);
    s := Lifecycle.ReachStep([m], doc, s, Acknowledge(0));
  }

  lemma FinalizationAnnounced(m: ManifestEntry, doc: StatusDoc, p: ProcessorId, c: Call) returns (s: Sys)
    requires Submitted(doc) && p != "" && !m.rejected
    requires c == Call(p, 1, m.requestId, c.line, EntryCompleted, "", Delivered(0), Received)
    ensures Lifecycle.Reachable([m], doc, s) && OwnerFence(s.db, p, 1) && s.db.row.doc.status == Finalizing
    ensures |s.db.entries| == 1 && s.db.entries[0].status == EntryCompleted && s.acked == {0}
  {
    s := ResultAcknowledged(m, doc, p, c);
    s := Lifecycle.ReachStep([m], doc, s, Job(Announces(0, doc.(status := Finalizing))));
  }

  /** A run in which a delivered result is committed, acknowledged and finalized. */
  lemma DeliveryCompletes(m: ManifestEntry, doc: StatusDoc, done: StatusDoc, p: ProcessorId, line: Bytes)
    returns (s: Sys)
    requires Submitted(doc) && p != "" && !m.rejected && done.status == Completed && NamesFile(done)
    ensures Lifecycle.Reachable([m], doc, s)
    ensures s.acked == {0} && s.finalized && s.db.row.doc == done
    ensures |s.db.entries| == 1 && s.db.entries[0].status == EntryCompleted
  {
    s := FinalizationAnnounced(m, doc, p, Call(p, 1, m.requestId, line, EntryCompleted, "", Delivered(0), Received));
    s := Lifecycle.ReachStep([m], doc, s, Finalizes(p, 1, Finalizing, done));
  }
}
