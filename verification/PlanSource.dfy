/** The plan-file source: a resumed run dispatches each unfinished request once, those
    that may still be recovered last. */
module PlanSource {
  import opened BatchTypes
  import opened PlanFile
  import opened Ingestion
  import Artifacts

  /** The custom id of a request line, as the source extracts it. */
  type IdReader = Bytes -> string

  /** The bytes a plan entry points at, if they lie within the file. */
  function Slice(file: Bytes, e: PlanEntry): Option<Bytes> {
    if 0 <= e.offset as int && e.offset as int + e.length as int <= |file|
    then Some(file[e.offset as nat..e.offset as nat + e.length as nat]) else None
  }

  /** One entry is read back to its request; an entry past the end is an error. */
  function ReadEntry(file: Bytes, batch: string, e: PlanEntry, readId: IdReader): Option<RequestId> {
    var line := Slice(file, e);
    if line.None? then None else Some(RequestId(batch, readId(line.value)))
  }

  predicate Readable(file: Bytes, plan: seq<PlanEntry>) {
    forall i :: 0 <= i < |plan| ==> Slice(file, plan[i]).Some?
  }

  function Items(file: Bytes, batch: string, plan: seq<PlanEntry>, readId: IdReader): seq<RequestId>
    requires Readable(file, plan)
  {
    seq(|plan|, i requires 0 <= i < |plan| => ReadEntry(file, batch, plan[i], readId).value)
  }

  /** The requests of a list with a given fate, in order. */
  datatype Fate = SendNow | Hold | Skip

  function FateOf(id: RequestId, terminal: set<RequestId>, recovering: set<RequestId>): Fate {
    if id in terminal then Skip else if id in recovering then Hold else SendNow
  }

  function Select(ids: seq<RequestId>, terminal: set<RequestId>, recovering: set<RequestId>, fate: Fate): seq<RequestId> {
    if |ids| == 0 then []
    else
      var front := Select(ids[..|ids| - 1], terminal, recovering, fate);
      if FateOf(ids[|ids| - 1], terminal, recovering) == fate then front + [ids[|ids| - 1]] else front
  }

  /** All plans in the order the models are visited. */
  function Joined(plans: seq<seq<PlanEntry>>): seq<PlanEntry> {
    if |plans| == 0 then [] else Joined(plans[..|plans| - 1]) + plans[|plans| - 1]
  }

  lemma {:induction false} SelectJoin(a: seq<RequestId>, b: seq<RequestId>, terminal: set<RequestId>,
                                      recovering: set<RequestId>, fate: Fate)
    ensures Select(a + b, terminal, recovering, fate) ==
            Select(a, terminal, recovering, fate) + Select(b, terminal, recovering, fate)
  {
    if |b| == 0 {
      assert a + b == a;
    } else {
      var front := b[..|b| - 1];
      SelectJoin(a, front, terminal, recovering, fate);
      assert (a + b)[..|a + b| - 1] == a + front;
    }
  }

  /** One model's plan: sends what can go now, adds to the held, skips the finished. */
  method ProducePlan(file: Bytes, batch: string, plan: seq<PlanEntry>, readId: IdReader,
                     terminal: set<RequestId>, recovering: set<RequestId>)
    returns (ok: bool, sent: seq<RequestId>, held: seq<RequestId>)
    ensures ok <==> Readable(file, plan)
    ensures ok ==> sent == Select(Items(file, batch, plan, readId), terminal, recovering, SendNow)
    ensures ok ==> held == Select(Items(file, batch, plan, readId), terminal, recovering, Hold)
  {
    sent, held := [], [];
    for i := 0 to |plan|
      invariant Readable(file, plan[..i])
      invariant sent == Select(Items(file, batch, plan[..i], readId), terminal, recovering, SendNow)
      invariant held == Select(Items(file, batch, plan[..i], readId), terminal, recovering, Hold)
    {
      var item := ReadEntry(file, batch, plan[i], readId);
      if item.None? {
        return false, sent, held;
      }
      var id := item.value;
      assert Items(file, batch, plan[..i + 1], readId) == Items(file, batch, plan[..i], readId) + [id];
      SelectJoin(Items(file, batch, plan[..i], readId), [id], terminal, recovering, SendNow);
      SelectJoin(Items(file, batch, plan[..i], readId), [id], terminal, recovering, Hold);
      if id in terminal {
        continue;
      }
      if id in recovering {
        held := held + [id];
        continue;
      }
      sent := sent + [id];
    }
    assert plan[..|plan|] == plan;
    ok := true;
  }

  /** All models in any order, then the held requests after the recovery window. */
  method Produce(file: Bytes, batch: string, plans: seq<seq<PlanEntry>>, readId: IdReader,
                 terminal: set<RequestId>, recovering: set<RequestId>)
    returns (ok: bool, sent: seq<RequestId>)
    ensures ok <==> Readable(file, Joined(plans))
    ensures ok ==>
              var ids := Items(file, batch, Joined(plans), readId);
              sent == Select(ids, terminal, recovering, SendNow) + Select(ids, terminal, recovering, Hold)
  {
    var held: seq<RequestId> := [];
    sent := [];
    for i := 0 to |plans|
      invariant Readable(file, Joined(plans[..i]))
      invariant sent == Select(Items(file, batch, Joined(plans[..i]), readId), terminal, recovering, SendNow)
      invariant held == Select(Items(file, batch, Joined(plans[..i]), readId), terminal, recovering, Hold)
    {
      assert plans[..i + 1][..i] == plans[..i];
      var s, h;
      ok, s, h := ProducePlan(file, batch, plans[i], readId, terminal, recovering);
      JoinedReads(file, batch, Joined(plans[..i]), plans[i], readId);
      if !ok {
        JoinedPrefix(plans, i);
        return;
      }
      SelectJoin(Items(file, batch, Joined(plans[..i]), readId), Items(file, batch, plans[i], readId),
                 terminal, recovering, SendNow);
      SelectJoin(Items(file, batch, Joined(plans[..i]), readId), Items(file, batch, plans[i], readId),
                 terminal, recovering, Hold);
      sent := sent + s;
      held := held + h;
    }
    assert plans[..|plans|] == plans;
    return true, sent + held;
  }

  lemma JoinedReads(file: Bytes, batch: string, a: seq<PlanEntry>, b: seq<PlanEntry>, readId: IdReader)
    requires Readable(file, a)
    ensures Readable(file, a + b) <==> Readable(file, b)
    ensures Readable(file, b) ==> Items(file, batch, a + b, readId) == Items(file, batch, a, readId) + Items(file, batch, b, readId)
  {
    if Readable(file, a + b) {
      forall i | 0 <= i < |b| ensures Slice(file, b[i]).Some? {
        assert (a + b)[|a| + i] == b[i];
      }
    }
  }

  /** A plan that cannot be read spoils the whole. */
  lemma {:induction false} JoinedPrefix(plans: seq<seq<PlanEntry>>, i: nat)
    requires i < |plans|
    ensures forall k :: 0 <= k < |plans[i]| ==> plans[i][k] in Joined(plans)
    decreases |plans|
  {
    if i < |plans| - 1 {
      JoinedPrefix(plans[..|plans| - 1], i);
    }
  }

  // ---- selecting ----

  ghost predicate NoRepeats<T>(s: seq<T>) {
    forall i, j :: 0 <= i < j < |s| ==> s[i] != s[j]
  }

  lemma {:induction false} SelectMember(ids: seq<RequestId>, terminal: set<RequestId>, recovering: set<RequestId>,
                                        fate: Fate, id: RequestId)
    ensures id in Select(ids, terminal, recovering, fate) <==> id in ids && FateOf(id, terminal, recovering) == fate
  {
    if |ids| > 0 {
      SelectMember(ids[..|ids| - 1], terminal, recovering, fate, id);
      assert ids == ids[..|ids| - 1] + [ids[|ids| - 1]];
    }
  }

  lemma {:induction false} SelectNoRepeats(ids: seq<RequestId>, terminal: set<RequestId>, recovering: set<RequestId>,
                                           fate: Fate)
    requires NoRepeats(ids)
    ensures NoRepeats(Select(ids, terminal, recovering, fate))
  {
    if |ids| > 0 {
      var last := ids[|ids| - 1];
      SelectNoRepeats(ids[..|ids| - 1], terminal, recovering, fate);
      SelectMember(ids[..|ids| - 1], terminal, recovering, fate, last);
      assert last !in ids[..|ids| - 1];
    }
  }

  // ---- counting entries across models ----

  lemma {:induction false} RepeatsCount<T>(s: seq<T>, x: T)
    requires NoRepeats(s)
    ensures multiset(s)[x] <= 1
  {
    if |s| > 0 {
      var front, last := s[..|s| - 1], s[|s| - 1];
      RepeatsCount(front, x);
      assert s == front + [last];
      assert last !in front;
    }
  }

  lemma SameCountsNoRepeats<T>(a: seq<T>, b: seq<T>)
    requires NoRepeats(a) && multiset(a) == multiset(b)
    ensures NoRepeats(b)
  {
    forall i, j | 0 <= i < j < |b| ensures b[i] != b[j] {
      RepeatsCount(a, b[j]);
      assert b == b[..j] + b[j..];
      assert b[i] in b[..j] && b[j] in b[j..];
      assert multiset(b)[b[j]] == multiset(b[..j])[b[j]] + multiset(b[j..])[b[j]];
    }
  }

  /** The entries of all accepted lines, in input order. */
  function AcceptedUpTo(ls: seq<Line>, n: nat): seq<PlanEntry>
    requires n <= |ls| && Fits(Start(ls, |ls|))
  {
    if n == 0 then []
    else if ls[n - 1].accepted then AcceptedUpTo(ls, n - 1) + [Located(ls, n - 1)]
    else AcceptedUpTo(ls, n - 1)
  }

  function PlansUpTo(ls: seq<Line>, models: seq<string>, n: nat): seq<PlanEntry>
    requires n <= |ls| && Fits(Start(ls, |ls|))
  {
    if |models| == 0 then []
    else PlansUpTo(ls, models[..|models| - 1], n) + PlanUpTo(ls, models[|models| - 1], n)
  }

  /** The entry line n adds to a plan that takes it. */
  function Added(ls: seq<Line>, n: nat, taken: bool): multiset<PlanEntry>
    requires n < |ls| && Fits(Start(ls, |ls|))
  {
    if taken then multiset{Located(ls, n)} else multiset{}
  }

  lemma PlanCounts(ls: seq<Line>, model: string, n: nat)
    requires n < |ls| && Fits(Start(ls, |ls|))
    ensures multiset(PlanUpTo(ls, model, n + 1)) ==
            multiset(PlanUpTo(ls, model, n)) + Added(ls, n, ls[n].accepted && ls[n].meta.model == model)
  {}

  /** One more line is one more entry, in the plan of its model alone. */
  lemma {:induction false} LineCounts(ls: seq<Line>, models: seq<string>, n: nat)
    requires n < |ls| && Fits(Start(ls, |ls|)) && NoRepeats(models)
    ensures multiset(PlansUpTo(ls, models, n + 1)) ==
            multiset(PlansUpTo(ls, models, n)) + Added(ls, n, ls[n].accepted && ls[n].meta.model in models)
    decreases |models|
  {
    if |models| > 0 {
      var front, last := models[..|models| - 1], models[|models| - 1];
      LineCounts(ls, front, n);
      PlanCounts(ls, last, n);
      LastApart(models, ls[n].meta.model);
      assert multiset(PlansUpTo(ls, models, n + 1)) ==
             multiset(PlansUpTo(ls, front, n + 1)) + multiset(PlanUpTo(ls, last, n + 1));
      assert multiset(PlansUpTo(ls, models, n)) ==
             multiset(PlansUpTo(ls, front, n)) + multiset(PlanUpTo(ls, last, n));
    }
  }

  lemma LastApart(models: seq<string>, model: string)
    requires |models| > 0 && NoRepeats(models)
    ensures var front, last := models[..|models| - 1], models[|models| - 1];
            && NoRepeats(front)
            && (model in models <==> model in front || model == last)
            && !(model in front && model == last)
  {
    assert models == models[..|models| - 1] + [models[|models| - 1]];
  }

  lemma {:induction false} NothingPlanned(ls: seq<Line>, models: seq<string>)
    requires Fits(Start(ls, |ls|))
    ensures PlansUpTo(ls, models, 0) == []
  {
    if |models| > 0 {
      NothingPlanned(ls, models[..|models| - 1]);
    }
  }

  lemma AcceptedCounts(ls: seq<Line>, n: nat)
    requires n < |ls| && Fits(Start(ls, |ls|))
    ensures multiset(AcceptedUpTo(ls, n + 1)) == multiset(AcceptedUpTo(ls, n)) + Added(ls, n, ls[n].accepted)
  {}

  lemma PartitionStep(ls: seq<Line>, models: seq<string>, n: nat)
    requires n < |ls| && Fits(Start(ls, |ls|)) && NoRepeats(models)
    requires ls[n].accepted ==> ls[n].meta.model in models
    requires multiset(PlansUpTo(ls, models, n)) == multiset(AcceptedUpTo(ls, n))
    ensures multiset(PlansUpTo(ls, models, n + 1)) == multiset(AcceptedUpTo(ls, n + 1))
  {
    LineCounts(ls, models, n);
    AcceptedCounts(ls, n);
  }

  /** The plans of all models together are the accepted lines. */
  lemma {:induction false} PlansPartition(ls: seq<Line>, models: seq<string>, n: nat)
    requires n <= |ls| && Fits(Start(ls, |ls|)) && NoRepeats(models)
    requires forall i :: 0 <= i < |ls| && ls[i].accepted ==> ls[i].meta.model in models
    ensures multiset(PlansUpTo(ls, models, n)) == multiset(AcceptedUpTo(ls, n))
  {
    if n == 0 {
      NothingPlanned(ls, models);
    } else {
      PlansPartition(ls, models, n - 1);
      PartitionStep(ls, models, n - 1);
    }
  }

  /** Plans as they were written: each a permutation of its model's accepted lines. */
  ghost predicate Written(ls: seq<Line>, models: seq<string>, plans: seq<seq<PlanEntry>>)
    requires Fits(Start(ls, |ls|))
  {
    |plans| == |models| && forall k :: 0 <= k < |plans| ==> multiset(plans[k]) == multiset(PlanUpTo(ls, models[k], |ls|))
  }

  lemma {:induction false} JoinedCounts(ls: seq<Line>, models: seq<string>, plans: seq<seq<PlanEntry>>)
    requires Fits(Start(ls, |ls|)) && Written(ls, models, plans)
    ensures multiset(Joined(plans)) == multiset(PlansUpTo(ls, models, |ls|))
    decreases |plans|
  {
    if |plans| > 0 {
      JoinedCounts(ls, models[..|models| - 1], plans[..|plans| - 1]);
    }
  }

  // ---- entries and lines ----

  lemma {:induction false} AcceptedMember(ls: seq<Line>, n: nat, e: PlanEntry)
    requires n <= |ls| && Fits(Start(ls, |ls|))
    ensures e in AcceptedUpTo(ls, n) <==> exists i :: 0 <= i < n && ls[i].accepted && Located(ls, i) == e
  {
    if n > 0 {
      AcceptedMember(ls, n - 1, e);
    }
  }

  /** Ingested lines, none too long for a plan entry. */
  ghost predicate Sound(ls: seq<Line>) {
    && Fits(Start(ls, |ls|))
    && (forall i :: 0 <= i < |ls| ==> Artifacts.IsLine(ls[i].bytes))
    && (forall i: nat :: i < |ls| ==> Short(ls, i))
    && (forall i, j :: 0 <= i < j < |ls| ==> ls[i].meta.customId != ls[j].meta.customId)
  }

  lemma EntryAligned(ls: seq<Line>, i: nat)
    requires Sound(ls) && i < |ls| && ls[i].accepted
    ensures Located(ls, i).offset as int == Start(ls, i)
    ensures Located(ls, i).length as int == |ls[i].bytes| == Start(ls, i + 1) - Start(ls, i)
  {
    ShortAligns(ls, i);
    assert Short(ls, i);
  }

  lemma SliceIs(file: Bytes, e: PlanEntry, from: nat, to: nat)
    requires from <= to <= |file| && e.offset as int == from && e.length as int == to - from
    ensures Slice(file, e) == Some(file[from..to])
  {}

  lemma LineAtEntry(ls: seq<Line>, i: nat)
    requires Sound(ls) && i < |ls| && ls[i].accepted
    ensures Slice(Artifacts.Flatten(BytesOf(ls)), Located(ls, i)) == Some(ls[i].bytes)
  {
    EntryAligned(ls, i);
    FileSlices(ls, i);
    SliceIs(Artifacts.Flatten(BytesOf(ls)), Located(ls, i), Start(ls, i), Start(ls, i + 1));
  }

  lemma EntriesDiffer(ls: seq<Line>, i: nat, j: nat)
    requires Sound(ls) && i < j < |ls| && ls[i].accepted && ls[j].accepted
    ensures Located(ls, i) != Located(ls, j)
  {
    EntryAligned(ls, i);
    EntryAligned(ls, j);
    StartMonotone(ls, i + 1, j);
  }

  lemma {:induction false} AcceptedNoRepeats(ls: seq<Line>, n: nat)
    requires Sound(ls) && n <= |ls|
    ensures NoRepeats(AcceptedUpTo(ls, n))
  {
    if n > 0 {
      AcceptedNoRepeats(ls, n - 1);
      if ls[n - 1].accepted {
        var e := Located(ls, n - 1);
        AcceptedMember(ls, n - 1, e);
        forall i: nat | i < n - 1 && ls[i].accepted ensures Located(ls, i) != e {
          EntriesDiffer(ls, i, n - 1);
        }
      }
    }
  }

  // ---- the partition of a resumed run ----

  /** The source reads the custom id that ingestion read. */
  ghost predicate SameIds(ls: seq<Line>, readId: IdReader) {
    forall i :: 0 <= i < |ls| ==> readId(ls[i].bytes) == ls[i].meta.customId
  }

  lemma EntryReads(ls: seq<Line>, batch: string, readId: IdReader, i: nat)
    requires Sound(ls) && SameIds(ls, readId) && i < |ls| && ls[i].accepted
    ensures ReadEntry(Artifacts.Flatten(BytesOf(ls)), batch, Located(ls, i), readId) ==
            Some(RequestId(batch, ls[i].meta.customId))
  {
    LineAtEntry(ls, i);
  }

  /** The plans hold exactly the accepted entries, each once. */
  ghost predicate Holds(ls: seq<Line>, all: seq<PlanEntry>)
    requires Fits(Start(ls, |ls|))
  {
    && NoRepeats(all)
    && (forall e :: e in all <==> exists i :: 0 <= i < |ls| && ls[i].accepted && Located(ls, i) == e)
  }

  lemma PlansHold(ls: seq<Line>, models: seq<string>, plans: seq<seq<PlanEntry>>)
    requires Sound(ls) && NoRepeats(models) && Written(ls, models, plans)
    requires forall i :: 0 <= i < |ls| && ls[i].accepted ==> ls[i].meta.model in models
    ensures Holds(ls, Joined(plans))
  {
    JoinedCounts(ls, models, plans);
    PlansPartition(ls, models, |ls|);
    var accepted := AcceptedUpTo(ls, |ls|);
    AcceptedNoRepeats(ls, |ls|);
    SameCountsNoRepeats(accepted, Joined(plans));
    forall e ensures e in Joined(plans) <==> exists i :: 0 <= i < |ls| && ls[i].accepted && Located(ls, i) == e {
      AcceptedMember(ls, |ls|, e);
      assert e in Joined(plans) <==> e in multiset(Joined(plans));
      assert e in accepted <==> e in multiset(accepted);
    }
  }

  /** Item k of the plans is the request of line i. */
  ghost predicate ItemOf(ls: seq<Line>, batch: string, readId: IdReader, e: PlanEntry, i: int)
    requires Fits(Start(ls, |ls|))
  {
    && 0 <= i < |ls| && ls[i].accepted && Located(ls, i) == e
    && ReadEntry(Artifacts.Flatten(BytesOf(ls)), batch, e, readId) == Some(RequestId(batch, ls[i].meta.customId))
  }

  lemma LineOfItem(ls: seq<Line>, batch: string, readId: IdReader, all: seq<PlanEntry>, e: PlanEntry) returns (i: int)
    requires Sound(ls) && SameIds(ls, readId) && Holds(ls, all) && e in all
    ensures ItemOf(ls, batch, readId, e, i)
  {
    i :| 0 <= i < |ls| && ls[i].accepted && Located(ls, i) == e;
    EntryReads(ls, batch, readId, i);
  }

  lemma ItemsReadable(ls: seq<Line>, batch: string, readId: IdReader, all: seq<PlanEntry>)
    requires Sound(ls) && SameIds(ls, readId) && Holds(ls, all)
    ensures Readable(Artifacts.Flatten(BytesOf(ls)), all)
  {
    forall k | 0 <= k < |all| ensures Slice(Artifacts.Flatten(BytesOf(ls)), all[k]).Some? {
      var _ := LineOfItem(ls, batch, readId, all, all[k]);
    }
  }

  lemma ItemsDiffer(ls: seq<Line>, batch: string, readId: IdReader, all: seq<PlanEntry>)
    requires Sound(ls) && SameIds(ls, readId) && Holds(ls, all) && Readable(Artifacts.Flatten(BytesOf(ls)), all)
    ensures NoRepeats(Items(Artifacts.Flatten(BytesOf(ls)), batch, all, readId))
  {
    var ids := Items(Artifacts.Flatten(BytesOf(ls)), batch, all, readId);
    forall k, m | 0 <= k < m < |ids| ensures ids[k] != ids[m] {
      var i := LineOfItem(ls, batch, readId, all, all[k]);
      var j := LineOfItem(ls, batch, readId, all, all[m]);
      assert i != j;
    }
  }

  /** The requests of the plans are those of the accepted lines. */
  lemma ItemsAre(ls: seq<Line>, batch: string, readId: IdReader, all: seq<PlanEntry>, id: RequestId)
    requires Sound(ls) && SameIds(ls, readId) && Holds(ls, all) && Readable(Artifacts.Flatten(BytesOf(ls)), all)
    ensures id in Items(Artifacts.Flatten(BytesOf(ls)), batch, all, readId) <==>
            exists i :: 0 <= i < |ls| && ls[i].accepted && id == RequestId(batch, ls[i].meta.customId)
  {
    var ids := Items(Artifacts.Flatten(BytesOf(ls)), batch, all, readId);
    if id in ids {
      var k :| 0 <= k < |ids| && ids[k] == id;
      var i := LineOfItem(ls, batch, readId, all, all[k]);
    }
    if i :| 0 <= i < |ls| && ls[i].accepted && id == RequestId(batch, ls[i].meta.customId) {
      assert Located(ls, i) in all;
      var k :| 0 <= k < |all| && all[k] == Located(ls, i);
      EntryReads(ls, batch, readId, i);
      assert ids[k] == id;
    }
  }

  lemma JoinNoRepeats<T>(a: seq<T>, b: seq<T>)
    requires NoRepeats(a) && NoRepeats(b) && forall x :: x in a ==> x !in b
    ensures NoRepeats(a + b)
  {
    forall i, j | 0 <= i < j < |a + b| ensures (a + b)[i] != (a + b)[j] {
      if i < |a| <= j {
        assert a[i] in a && b[j - |a|] in b;
      }
    }
  }

  /** Some accepted line asks for this request. */
  ghost predicate Asked(ls: seq<Line>, batch: string, id: RequestId) {
    exists i :: 0 <= i < |ls| && ls[i].accepted && id == RequestId(batch, ls[i].meta.customId)
  }

  /** A resumed run sends each accepted unfinished request exactly once, no finished one
      and nothing else, and the ones that may still be recovered after all others. */
  lemma ResumePartition(ls: seq<Line>, batch: string, readId: IdReader, models: seq<string>,
                        plans: seq<seq<PlanEntry>>, terminal: set<RequestId>, recovering: set<RequestId>)
    requires Sound(ls) && SameIds(ls, readId) && NoRepeats(models) && Written(ls, models, plans)
    requires forall i :: 0 <= i < |ls| && ls[i].accepted ==> ls[i].meta.model in models
    ensures Readable(Artifacts.Flatten(BytesOf(ls)), Joined(plans))
    ensures var ids := Items(Artifacts.Flatten(BytesOf(ls)), batch, Joined(plans), readId);
            var now := Select(ids, terminal, recovering, SendNow);
            var held := Select(ids, terminal, recovering, Hold);
            && NoRepeats(now + held)
            && (forall id :: id in now <==> Asked(ls, batch, id) && id !in terminal && id !in recovering)
            && (forall id :: id in held <==> Asked(ls, batch, id) && id !in terminal && id in recovering)
  {
    PlansHold(ls, models, plans);
    ItemsReadable(ls, batch, readId, Joined(plans));
    ItemsDiffer(ls, batch, readId, Joined(plans));
    var ids := Items(Artifacts.Flatten(BytesOf(ls)), batch, Joined(plans), readId);
    var now := Select(ids, terminal, recovering, SendNow);
    var held := Select(ids, terminal, recovering, Hold);
    SelectNoRepeats(ids, terminal, recovering, SendNow);
    SelectNoRepeats(ids, terminal, recovering, Hold);
    forall id
      ensures id in now <==> Asked(ls, batch, id) && id !in terminal && id !in recovering
      ensures id in held <==> Asked(ls, batch, id) && id !in terminal && id in recovering
    {
      ItemsAre(ls, batch, readId, Joined(plans), id);
      SelectMember(ids, terminal, recovering, SendNow, id);
      SelectMember(ids, terminal, recovering, Hold, id);
    }
    JoinNoRepeats(now, held);
  }
}
