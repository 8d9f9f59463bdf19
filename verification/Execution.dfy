/** One execution of a job: the dispatcher chain feeds the checkpointer through the result
    channel, and what the chain closed with is what the entry set ends up with. */
module Execution {
  import opened BatchTypes
  import opened Statements
  import opened System
  import opened Checkpointer
  import Artifacts
  import Dispatch

  /** The chain after a run that closed its results. */
  function Closed(requests: seq<Dispatch.Request>, managed: set<string>, steps: seq<Dispatch.Step>): Dispatch.Chain {
    Dispatch.Run(Dispatch.Start(requests, managed), steps)
  }

  /** The messages are the results the chain emitted, in order; each carries the metadata
      of its request. */
  predicate Carries(chain: Dispatch.Chain, ids: seq<RequestId>, msgs: seq<Message>) {
    && |msgs| == |chain.emitted|
    && forall x :: 0 <= x < |msgs| ==>
         chain.emitted[x] < |ids| && msgs[x].result.id == ids[chain.emitted[x]] && msgs[x].result.customId != ""
  }

  /** The chain gave up a request: a duplicate whose mark reported a terminal entry, or
      anything left when the ownership was lost. */
  predicate GivenUp(chain: Dispatch.Chain, i: nat)
    requires i < |chain.stage|
  {
    chain.stage[i] == Dispatch.Dropped || (chain.stage[i] == Dispatch.Discarded && chain.preMode == Dispatch.Lost)
  }

  /** What a drain says of its messages. */
  ghost predicate Told(r: DrainResult, db: Db, m0: map<RequestId, Pending.RequestItem>, m: map<RequestId, Pending.RequestItem>,
                       msgs: seq<Message>, handled: seq<Handling>)
  {
    && |handled| == |msgs| && Sticky(handled) && Ends(r, handled)
    && SettledTerminal(db, msgs, handled) && OthersOnly(m, msgs, handled)
    && m == m0 - SettledIds(msgs, handled)
  }

  /** After a clean drain nothing was passed over, so every message's entry is terminal. */
  lemma CleanDrainSettles(db: Db, m0: map<RequestId, Pending.RequestItem>, m: map<RequestId, Pending.RequestItem>,
                          msgs: seq<Message>, handled: seq<Handling>, x: nat)
    requires Told(Drained, db, m0, m, msgs, handled) && x < |msgs| && msgs[x].result.customId != ""
    ensures EntryTerminal(db, msgs[x].result.id)
  {
    assert forall i :: 0 <= i < |handled| ==> handled[i] in handled && !Failing(handled[i]);
  }

  /** A request is terminal, was given up, or is awaited as before after a failed drain. */
  ghost predicate Settles(chain: Dispatch.Chain, ids: seq<RequestId>, r: DrainResult, db: Db,
                          m0: map<RequestId, Pending.RequestItem>, m: map<RequestId, Pending.RequestItem>)
  {
    && |chain.stage| == |ids|
    && forall i :: 0 <= i < |ids| ==>
         GivenUp(chain, i) || EntryTerminal(db, ids[i]) || (r != Drained && (ids[i] in m0 ==> ids[i] in m))
  }

  lemma RequestsSettle(chain: Dispatch.Chain, ids: seq<RequestId>, msgs: seq<Message>, handled: seq<Handling>,
                       r: DrainResult, db: Db, m0: map<RequestId, Pending.RequestItem>, m: map<RequestId, Pending.RequestItem>)
    requires |chain.stage| == |ids| && Carries(chain, ids, msgs) && Told(r, db, m0, m, msgs, handled)
    requires forall i :: 0 <= i < |ids| ==> i in chain.emitted || GivenUp(chain, i)
    ensures Settles(chain, ids, r, db, m0, m)
  {
    forall i | 0 <= i < |ids| && !GivenUp(chain, i)
      ensures EntryTerminal(db, ids[i]) || (r != Drained && (ids[i] in m0 ==> ids[i] in m))
    {
      var x :| 0 <= x < |chain.emitted| && chain.emitted[x] == i;
      if r == Drained {
        CleanDrainSettles(db, m0, m, msgs, handled, x);
      } else if ids[i] in SettledIds(msgs, handled) {
        var y :| 0 <= y < |handled| && Settled(handled[y]) && msgs[y].result.id == ids[i];
      }
    }
  }

  /** Requests with terminal entries leave no open entry that was requested. */
  lemma NothingOpen(db: Db, ids: seq<RequestId>)
    requires DistinctRequests(db.entries)
    requires forall x :: 0 <= x < |db.entries| ==> db.entries[x].Terminal() || db.entries[x].requestId in ids
    requires forall id :: id in ids ==> EntryTerminal(db, id)
    ensures Artifacts.AllTerminal(db.entries)
  {}

  /** Nothing open was left out of the requests, and those given up are terminal. */
  ghost predicate Covers(chain: Dispatch.Chain, ids: seq<RequestId>, db: Db)
    requires |chain.stage| == |ids|
  {
    && DistinctRequests(db.entries)
    && (forall x :: 0 <= x < |db.entries| ==> db.entries[x].Terminal() || db.entries[x].requestId in ids)
    && (forall i :: 0 <= i < |ids| && GivenUp(chain, i) ==> EntryTerminal(db, ids[i]))
  }

  lemma ReadyToFinalize(chain: Dispatch.Chain, ids: seq<RequestId>, db: Db,
                        m0: map<RequestId, Pending.RequestItem>, m: map<RequestId, Pending.RequestItem>)
    requires Settles(chain, ids, Drained, db, m0, m) && Covers(chain, ids, db)
    ensures Artifacts.AllTerminal(db.entries)
  {
    forall id | id in ids ensures EntryTerminal(db, id) {
      var i :| 0 <= i < |ids| && ids[i] == id;
      assert GivenUp(chain, i) || EntryTerminal(db, ids[i]);
    }
    NothingOpen(db, ids);
  }

  /** Whatever the dispatchers and the other actors do: once the chain has closed and its
      results are drained without error, every request it did not give up has a terminal
      entry; after an error it has one or is awaited as before. So if the open entries
      were requested and those given up are terminal, the batch is ready to finalize. The
      drain is without error if no result is faulty and the run holds the row throughout. */
  method Execute(ck: ResultCheckpointer, requests: seq<Dispatch.Request>, managed: set<string>,
                 steps: seq<Dispatch.Step>, ids: seq<RequestId>, msgs: seq<Message>)
    returns (r: DrainResult, handled: seq<Handling>, ghost states: seq<Db>)
    requires Closed(requests, managed, steps).results && |ids| == |requests|
    requires Carries(Closed(requests, managed, steps), ids, msgs)
    requires forall i :: 0 <= i < |msgs| ==> msgs[i].Valid(ck.sink.pid, ck.sink.epoch)
    requires ck.sink.files.Valid() && ck.Refines(true)
    modifies ck.sink.files, ck.sink.entries, ck.pending, ck
    ensures ck.sink.files.Valid() && ck.Refines(r == Drained)
    ensures Traced(states, msgs, handled, ck.sink.pid, ck.sink.epoch) && |handled| == |msgs|
    ensures Smooth(states, msgs, handled, ck.sink.pid, ck.sink.epoch) ==> r == Drained
    ensures Settles(Closed(requests, managed, steps), ids, r, ck.sink.entries.Snapshot(), old(ck.pending.m), ck.pending.m)
    ensures r == Drained && Covers(Closed(requests, managed, steps), ids, ck.sink.entries.Snapshot()) ==>
              Artifacts.AllTerminal(ck.sink.entries.Snapshot().entries)
  {
    ghost var chain := Closed(requests, managed, steps);
    Dispatch.OneResultPerRequest(requests, managed, steps);
    r, handled, states := ck.Drain(msgs);
    ghost var db := ck.sink.entries.Snapshot();
    RequestsSettle(chain, ids, msgs, handled, r, db, old(ck.pending.m), ck.pending.m);
    if r == Drained && Covers(chain, ids, db) {
      ReadyToFinalize(chain, ids, db, old(ck.pending.m), ck.pending.m);
    }
  }
}
