/** From the bytes of an input file to the requests a resumed run sends: ingestion, the
    plan files it writes, and the source that reads them back. */
module Resume {
  import opened BatchTypes
  import opened PlanFile
  import opened Ingestion
  import opened PlanSource
  import Artifacts
  import Planner

  /** Some line of the input asks for this request, for a registered model. */
  ghost predicate Requested(lines: seq<Bytes>, parse: Parser, registered: string -> bool, batch: string, id: RequestId) {
    exists i :: 0 <= i < |lines| && parse(lines[i]).Some? && registered(parse(lines[i]).value.model) &&
                id == RequestId(batch, parse(lines[i]).value.customId)
  }

  /** A line of a registered model fits the length field of a plan entry. */
  predicate Plannable(line: Bytes, parse: Parser, registered: string -> bool) {
    parse(line).Some? && registered(parse(line).value.model) ==> |line| < 0x1_0000_0000
  }

  lemma RequestedIsAsked(ls: seq<Line>, parse: Parser, registered: string -> bool, batch: string, id: RequestId)
    requires Faithful(ls, parse, registered)
    ensures Requested(BytesOf(ls), parse, registered, batch, id) <==> Asked(ls, batch, id)
  {
    if Asked(ls, batch, id) {
      var i :| 0 <= i < |ls| && ls[i].accepted && id == RequestId(batch, ls[i].meta.customId);
      assert BytesOf(ls)[i] == ls[i].bytes;
    }
  }

  /** A registered line is in the plan of its model. */
  lemma {:induction false} LineIsPlanned(ls: seq<Line>, i: nat, n: nat)
    requires i < n <= |ls| && ls[i].accepted && Fits(Start(ls, |ls|))
    ensures |PlanUpTo(ls, ls[i].meta.model, n)| > 0
  {
    if i < n - 1 {
      LineIsPlanned(ls, i, n - 1);
    }
  }

  lemma ModelsCovered(acc: Planner.PlanAccumulator, ls: seq<Line>)
    requires Fits(Start(ls, |ls|)) && PlansMatch(acc, ls)
    ensures forall i :: 0 <= i < |ls| && ls[i].accepted ==> ls[i].meta.model in acc.modelToSafe
  {
    forall i | 0 <= i < |ls| && ls[i].accepted ensures ls[i].meta.model in acc.modelToSafe {
      LineIsPlanned(ls, i, |ls|);
      assert acc.PlanOf(ls[i].meta.model) == PlanUpTo(ls, ls[i].meta.model, |ls|);
    }
  }

  lemma IngestedIsSound(ls: seq<Line>, parse: Parser, registered: string -> bool, readId: IdReader)
    requires Fits(Start(ls, |ls|)) && Faithful(ls, parse, registered) && Artifacts.AreLines(BytesOf(ls))
    requires forall line :: parse(line).Some? ==> readId(line) == parse(line).value.customId
    requires forall i: nat :: i < |ls| ==> Short(ls, i)
    ensures Sound(ls) && SameIds(ls, readId)
  {
    forall i | 0 <= i < |ls| ensures Artifacts.IsLine(ls[i].bytes) {
      assert BytesOf(ls)[i] == ls[i].bytes;
    }
  }

  /** Every plan is written to its file and read back, the models in any order. */
  method ReadPlans(acc: Planner.PlanAccumulator, ghost ls: seq<Line>)
    returns (models: seq<string>, plans: seq<seq<PlanEntry>>)
    requires Fits(Start(ls, |ls|)) && PlansMatch(acc, ls)
    ensures NoRepeats(models) && (forall m :: m in models <==> m in acc.modelToSafe) && Written(ls, models, plans)
  {
    models, plans := [], [];
    var left := acc.modelToSafe.Keys;
    while left != {}
      invariant left <= acc.modelToSafe.Keys && NoRepeats(models) && Written(ls, models, plans)
      invariant forall m :: m in models <==> m in acc.modelToSafe && m !in left
      decreases |left|
    {
      var m :| m in left;
      var plan := WriteThenRead(acc.PlanOf(m));
      assert acc.PlanOf(m) == PlanUpTo(ls, m, |ls|);
      models, plans, left := models + [m], plans + [plan.value], left - {m};
    }
  }

  /** The requests a resumed run sends, from the input bytes alone: every request of a
      registered model that is not finished, exactly once, those that may still be
      recovered last, and nothing else. */
  method ResumeFromInput(input: Bytes, batch: string, parse: Parser, registered: string -> bool, render: ErrorRenderer,
                         readId: IdReader, terminal: set<RequestId>, recovering: set<RequestId>)
    returns (r: Outcome, sent: seq<RequestId>, ghost now: seq<RequestId>, ghost held: seq<RequestId>)
    requires Fits(|input| + 1)
    requires forall line :: parse(line).Some? ==> readId(line) == parse(line).value.customId
    requires forall i :: 0 <= i < |SplitLines(input)| ==> Plannable(SplitLines(input)[i], parse, registered)
    ensures r.Ingested? <==> Valid(SplitLines(input), parse)
    ensures r.Ingested? ==>
              && sent == now + held && NoRepeats(sent)
              && (forall id :: id in now <==>
                    Requested(SplitLines(input), parse, registered, batch, id) && id !in terminal && id !in recovering)
              && (forall id :: id in held <==>
                    Requested(SplitLines(input), parse, registered, batch, id) && id !in terminal && id in recovering)
  {
    var p, acc;
    r, p, acc := PreProcess(input, batch, parse, registered, render);
    sent, now, held := [], [], [];
    if !r.Ingested? {
      return;
    }
    ghost var ls := p.lines;
    forall i: nat | i < |ls| ensures Short(ls, i) {
      assert BytesOf(ls)[i] == SplitLines(input)[i];
    }
    IngestedIsSound(ls, parse, registered, readId);
    ModelsCovered(acc, ls);
    var models, plans := ReadPlans(acc, ls);
    ResumePartition(ls, batch, readId, models, plans, terminal, recovering);
    var ok;
    ok, sent := Produce(p.local, batch, plans, readId, terminal, recovering);
    ghost var ids := Items(p.local, batch, Joined(plans), readId);
    now, held := Select(ids, terminal, recovering, SendNow), Select(ids, terminal, recovering, Hold);
    forall id ensures Requested(SplitLines(input), parse, registered, batch, id) <==> Asked(ls, batch, id) {
      RequestedIsAsked(ls, parse, registered, batch, id);
    }
  }
}
