/** Routing of a durable delivery: to every job that still awaits its request, or, when
    there is none, acknowledged as residue once no entry can account for it. */
module Router {
  import opened BatchTypes
  import opened Statements
  import opened System
  import opened Pending
  import BatchStore

  /** The jobs the delivery goes to, and whether the router acknowledges it itself. An
      unverifiable check is not safe. */
  method Route(subscribers: seq<PendingRequests>, store: BatchStore.ResumableStore, rid: RequestId, checkFails: bool)
    returns (targets: seq<nat>, ack: bool)
    ensures forall i: nat :: i in targets <==> i < |subscribers| && rid in subscribers[i].m
    ensures ack ==> |targets| == 0 && !checkFails
    ensures |targets| == 0 && !checkFails ==>
              (ack <==> forall i :: 0 <= i < |store.entries| && store.entries[i].requestId == rid ==> store.entries[i].Terminal())
  {
    targets := [];
    for k := 0 to |subscribers|
      invariant forall i: nat :: i in targets <==> i < k && rid in subscribers[i].m
    {
      var owns := subscribers[k].Has(rid);
      if owns {
        targets := targets + [k];
      }
    }
    if |targets| > 0 || checkFails {
      return targets, false;
    }
    var open := store.HasOpenEntryByRequest(rid);
    ack := !open;
  }

  /** The router's check is the residue check of the system model, on a table whose
      request ids are distinct. */
  lemma ResidueCheckAgrees(db: Db, rid: RequestId)
    requires DistinctRequests(db.entries)
    ensures (forall i :: 0 <= i < |db.entries| && db.entries[i].requestId == rid ==> db.entries[i].Terminal())
            <==> !OpenEntry(db, rid)
  {
    var x := IndexOf(db.entries, rid);
    assert x.Some? ==> forall i :: 0 <= i < |db.entries| && db.entries[i].requestId == rid ==> i == x.value;
  }
}
