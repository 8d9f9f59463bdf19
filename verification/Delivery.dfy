/** No result is lost: an acknowledged delivery always belongs to a terminal entry,
    in every state of every interleaving. */
module Delivery {
  import opened BatchTypes
  import opened Statements
  import opened System
  import Ownership

  lemma {:induction false} IndexOfSame(a: seq<Entry>, b: seq<Entry>, rid: RequestId)
    requires |a| == |b|
    requires forall i :: 0 <= i < |a| ==> a[i].requestId == b[i].requestId
    ensures IndexOf(a, rid) == IndexOf(b, rid)
  {
    if |a| > 0 && a[|a| - 1].requestId != rid {
      IndexOfSame(a[..|a| - 1], b[..|b| - 1], rid);
    }
  }

  /** Dispatched and terminal are stable properties of a request. */
  lemma RequestStable(db: Db, stmt: Stmt, rid: RequestId)
    ensures EntryMarked(db, rid) ==> EntryMarked(Exec(db, stmt), rid)
    ensures EntryTerminal(db, rid) ==> EntryTerminal(Exec(db, stmt), rid)
    ensures |db.entries| > 0 ==> IndexOf(Exec(db, stmt).entries, rid) == IndexOf(db.entries, rid)
  {
    if |db.entries| > 0 {
      forall i | 0 <= i < |db.entries|
        ensures |Exec(db, stmt).entries| == |db.entries|
        ensures Exec(db, stmt).entries[i].requestId == db.entries[i].requestId
      {
        Ownership.StepEntries(db, stmt, i);
      }
      IndexOfSame(db.entries, Exec(db, stmt).entries, rid);
      var x := IndexOf(db.entries, rid);
      if x.Some? {
        Ownership.StepEntries(db, stmt, x.value);
      }
    }
  }

  ghost predicate CallSound(db: Db, deliveries: seq<RequestId>, c: Call) {
    && (c.source.Delivered? ==> c.source.delivery < |deliveries| && deliveries[c.source.delivery] == c.rid)
    && (Settles(c.phase) ==> EntryTerminal(db, c.rid))
  }

  ghost predicate DeliveryInv(s: Sys) {
    && (forall d :: 0 <= d < |s.deliveries| ==> EntryMarked(s.db, s.deliveries[d]))
    && (forall d :: d in s.cleared || d in s.acked ==> d < |s.deliveries| && EntryTerminal(s.db, s.deliveries[d]))
    && (forall c :: 0 <= c < |s.calls| ==> CallSound(s.db, s.deliveries, s.calls[c]))
  }

  /** A later database in which no request lost its mark or its result. */
  ghost predicate Later(db: Db, n: Db) {
    && (forall rid :: EntryMarked(db, rid) ==> EntryMarked(n, rid))
    && (forall rid :: EntryTerminal(db, rid) ==> EntryTerminal(n, rid))
  }

  lemma ExecIsLater(db: Db, stmt: Stmt)
    ensures Later(db, Exec(db, stmt))
  {
    forall rid
      ensures EntryMarked(db, rid) ==> EntryMarked(Exec(db, stmt), rid)
      ensures EntryTerminal(db, rid) ==> EntryTerminal(Exec(db, stmt), rid)
    {
      RequestStable(db, stmt, rid);
    }
  }

  predicate Settles(p: Phase) {
    p == Accounted || p.Superseded?
  }

  /** A checkpoint call settles only on a terminal entry. */
  lemma CallSettles(s: Sys, c: Call, a: CallStep)
    requires CallEnabled(c, a) && Settles(PhaseAfter(s, c, a))
    requires Settles(c.phase) ==> EntryTerminal(s.db, c.rid)
    ensures EntryTerminal(if a.Commit? then Exec(s.db, CommitStmt(c)) else s.db, c.rid)
  {
    if a.Commit? {
      RequestStable(s.db, CommitStmt(c), c.rid);
    }
  }

  lemma CallKeeps(s: Sys, i: nat, a: CallStep, n: Db)
    requires i < |s.calls| && CallEnabled(s.calls[i], a) && DeliveryInv(s) && Later(s.db, n)
    requires a.Commit? ==> n == Exec(s.db, CommitStmt(s.calls[i]))
    requires !a.Commit? ==> n == s.db
    ensures DeliveryInv(CallLocal(s, i, a).(db := n))
  {
    var c := s.calls[i];
    if Settles(PhaseAfter(s, c, a)) {
      CallSettles(s, c, a);
    }
  }

  /** Job steps do not touch calls, deliveries or acknowledgements. */
  lemma JobFrame(s: Sys, j: JobStep)
    requires JobEnabled(s, j)
    ensures var n := JobLocal(s, j);
            && n.calls == s.calls && n.deliveries == s.deliveries
            && n.cleared == s.cleared && n.acked == s.acked
            && n.db == s.db && n.uuid == s.uuid && n.manifest == s.manifest
            && n.finalized == s.finalized && n.unmarked == s.unmarked
  {}

  lemma LaterKeeps(s: Sys, t: Sys)
    requires DeliveryInv(s) && Later(s.db, t.db)
    requires t.calls == s.calls && t.deliveries == s.deliveries && t.cleared == s.cleared && t.acked == s.acked
    ensures DeliveryInv(t)
  {}

  /** Steps that issue no statement and are not part of a call. */
  predicate Bookkeeping(step: Step) {
    step.StartCall? || step.Acknowledge? || step.Deliver? || step.CheckResidue? || step.AckResidue?
  }

  lemma BookkeepingKeeps(s: Sys, step: Step)
    requires Bookkeeping(step) && Enabled(s, step) && DeliveryInv(s)
    ensures DeliveryInv(Local(s, step))
  {}

  lemma StepKeeps(s: Sys, step: Step)
    requires Enabled(s, step) && DeliveryInv(s)
    ensures DeliveryInv(Apply(s, step))
  {
    ExecIsLater(s.db, StmtOf(s, step));
    if step.OnCall? {
      CallKeeps(s, step.call, step.action, Exec(s.db, StmtOf(s, step)));
    } else if Bookkeeping(step) {
      BookkeepingKeeps(s, step);
    } else {
      if step.Job? {
        JobFrame(s, step.job);
      }
      LaterKeeps(s, Apply(s, step));
    }
  }

  lemma {:induction false} DeliveryAlways(manifest: seq<ManifestEntry>, doc: StatusDoc, steps: seq<Step>)
    ensures DeliveryInv(After(Init(manifest, doc), steps))
  {
    if |steps| > 0 {
      DeliveryAlways(manifest, doc, steps[..|steps| - 1]);
      var s := After(Init(manifest, doc), steps[..|steps| - 1]);
      if Enabled(s, steps[|steps| - 1]) {
        StepKeeps(s, steps[|steps| - 1]);
      }
    }
  }
}
