/** The pending set of a job: requests awaiting a result, and the buffered channel that
    wakes the waiter when the set empties. */
module Pending {
  import opened BatchTypes

  datatype RequestItem = RequestItem(id: RequestId, customId: string, model: string, submittedAt: nat)

  /** A result; failed says it carries an error object rather than a response. */
  datatype ResultItem = ResultItem(id: RequestId, customId: string, model: string, submittedAt: nat, failed: bool)

  /** A result is this job's if its request is pending or it brings its own metadata. */
  predicate Accepts(m: map<RequestId, RequestItem>, r: ResultItem) {
    r.id in m || r.customId != ""
  }

  /** A response without metadata takes it from its pending request. */
  function Enriched(m: map<RequestId, RequestItem>, r: ResultItem): ResultItem {
    if !r.failed && r.customId == "" && r.id in m
    then r.(customId := m[r.id].customId, model := m[r.id].model, submittedAt := m[r.id].submittedAt)
    else r
  }

  /** Resolving wakes the waiter when it leaves the set empty, except for an error
      whose request is not pending. */
  predicate Wakes(m: map<RequestId, RequestItem>, r: ResultItem) {
    Accepts(m, r) && !(r.failed && r.id !in m) && m - {r.id} == map[]
  }

  class PendingRequests {
    var m: map<RequestId, RequestItem>
    var done: bool

    constructor ()
      ensures m == map[] && !done
    {
      m, done := map[], false;
    }

    /** The set and its signal as a state of the interleavings below, nobody waiting. */
    function View(): State
      reads this
    {
      State(m, done, [], 0)
    }

    method Store(msg: RequestItem)
      modifies `m
      ensures m == old(m)[msg.id := msg]
      ensures View() == Next(old(View()), StoreStep(msg))
    {
      m := m[msg.id := msg];
    }

    method Has(id: RequestId) returns (pending: bool)
      ensures pending <==> id in m
    {
      pending := id in m;
    }

    method SignalDone()
      modifies `done
      ensures done
    {
      done := true;
    }

    /** Attaches metadata and leaves the request pending. */
    method Enrich(result: ResultItem) returns (accepted: bool, enriched: ResultItem)
      ensures accepted <==> result.id in m || result.customId != ""
      ensures enriched.id == result.id && enriched.failed == result.failed
      ensures if result.failed || result.customId != "" || result.id !in m then enriched == result
              else enriched.customId == m[result.id].customId && enriched.model == m[result.id].model &&
                   enriched.submittedAt == m[result.id].submittedAt
      ensures enriched == Enriched(m, result)
    {
      enriched := result;
      if result.failed {
        if result.id in m {
          return true, enriched;
        }
        return result.customId != "", enriched;
      }
      if result.customId != "" {
        return true, enriched;
      }
      if result.id in m {
        var msg := m[result.id];
        enriched := result.(customId := msg.customId, model := msg.model, submittedAt := msg.submittedAt);
        return true, enriched;
      }
      return false, enriched;
    }

    /** The same verdict and the same metadata as Enrich, and the request is no longer
        pending; nothing else is removed, and the last removal signals. */
    method Resolve(result: ResultItem) returns (accepted: bool, enriched: ResultItem)
      modifies this
      ensures accepted <==> Accepts(old(m), result)
      ensures enriched == Enriched(old(m), result)
      ensures m == old(m) - {result.id}
      ensures done <==> old(done) || Wakes(old(m), result)
      ensures View() == Next(old(View()), ResolveStep(result))
    {
      enriched := result;
      accepted := false;
      if result.failed {
        if result.id in m {
          m := m - {result.id};
          accepted := true;
        } else {
          assert m - {result.id} == m;
          return result.customId != "", enriched;
        }
      } else if result.customId != "" {
        m := m - {result.id};
        accepted := true;
      } else if result.id in m {
        var msg := m[result.id];
        m := m - {result.id};
        enriched := result.(customId := msg.customId, model := msg.model, submittedAt := msg.submittedAt);
        accepted := true;
      } else {
        assert m - {result.id} == m;
      }
      if accepted && |m| == 0 {
        SignalDone();
      }
    }

    /** Empties the set and hands out each remaining request exactly once. */
    method DrainUnresolved() returns (remaining: seq<RequestItem>)
      modifies this
      ensures m == map[]
      ensures |remaining| == |old(m)|
      ensures forall id :: id in old(m) ==> old(m)[id] in remaining
      ensures forall r :: r in remaining ==> r in old(m).Values
      ensures done <==> old(done) || old(m) != map[]
      ensures View() == if old(m) == map[] then old(View()) else Next(Next(old(View()), DrainClear), DrainSignal)
    {
      remaining := [];
      var keys := m.Keys;
      while keys != {}
        invariant keys <= m.Keys && unchanged(this)
        invariant |remaining| + |keys| == |m|
        invariant forall id :: id in m && id !in keys ==> m[id] in remaining
        invariant forall r :: r in remaining ==> r in m.Values
        decreases |keys|
      {
        var id :| id in keys;
        remaining := remaining + [m[id]];
        keys := keys - {id};
      }
      var drained := |remaining| > 0;
      m := map[];
      if drained {
        SignalDone();
      }
    }
  }

  // ---- interleavings ----

  /** A call of Wait: about to look at the set, blocked on the channel after seeing
      pending requests, or returned. */
  datatype Waiter = Checking | Blocked | Returned | GaveUp

  /** The set and the channel, with every waiter, and the drains that have emptied the
      set but not yet signalled. */
  datatype State = State(m: map<RequestId, RequestItem>, done: bool, waiters: seq<Waiter>, draining: nat)

  datatype Step =
    | StoreStep(msg: RequestItem)
    | ResolveStep(result: ResultItem)
    | DrainClear
    | DrainSignal
    | Arrive
    | Look(waiter: nat)
    | Wake(waiter: nat)
    | CancelWait(waiter: nat)

  function Next(s: State, step: Step): State {
    match step
    case StoreStep(msg) => s.(m := s.m[msg.id := msg])
    case ResolveStep(r) => s.(m := s.m - {r.id}, done := s.done || Wakes(s.m, r))
    case DrainClear => if s.m == map[] then s else s.(m := map[], draining := s.draining + 1)
    case DrainSignal => if s.draining == 0 then s else s.(draining := s.draining - 1, done := true)
    case Arrive => s.(waiters := s.waiters + [Checking])
    case Look(w) =>
      if w < |s.waiters| && s.waiters[w] == Checking
      then s.(waiters := s.waiters[w := if s.m == map[] then Returned else Blocked])
      else s
    case Wake(w) =>
      if w < |s.waiters| && s.waiters[w] == Blocked && s.done
      then s.(waiters := s.waiters[w := Checking], done := false)
      else s
    case CancelWait(w) =>
      if w < |s.waiters| && s.waiters[w] == Blocked then s.(waiters := s.waiters[w := GaveUp]) else s
  }

  function Run(s: State, steps: seq<Step>): State {
    if |steps| == 0 then s else Next(Run(s, steps[..|steps| - 1]), steps[|steps| - 1])
  }

  const START := State(map[], false, [], 0)

  ghost predicate Awake(s: State) {
    s.m == map[] && (exists w :: 0 <= w < |s.waiters| && s.waiters[w] == Blocked) ==> s.done || s.draining > 0
  }

  /** An uncancelled Wait returns only at a moment when nothing is pending. */
  lemma ReturnsOnlyWhenEmpty(s: State, step: Step, w: nat)
    requires w < |s.waiters| && s.waiters[w] != Returned && Next(s, step).waiters[w] == Returned
    ensures step == Look(w) && s.m == map[]
  {}

  predicate Unfinished(w: Waiter) {
    w == Checking || w == Blocked
  }

  /** At most one call of Wait has not returned. */
  ghost predicate Alone(s: State) {
    forall v, w :: 0 <= v < w < |s.waiters| ==> !Unfinished(s.waiters[v]) || !Unfinished(s.waiters[w])
  }

  /** Waits may follow one another, but never overlap. */
  ghost predicate OneAtATime(steps: seq<Step>) {
    Alone(Run(START, steps)) && (|steps| > 0 ==> OneAtATime(steps[..|steps| - 1]))
  }

  /** The step leaves every other waiter blocked as it was. */
  lemma BlockedBefore(s: State, step: Step, w: nat)
    requires w < |Next(s, step).waiters| && Next(s, step).waiters[w] == Blocked
    ensures w < |s.waiters| && (s.waiters[w] == Blocked || (step == Look(w) && s.m != map[]))
  {}

  lemma StepKeepsAwake(s: State, step: Step)
    requires Awake(s) && Alone(s)
    ensures Awake(Next(s, step))
  {
    var t := Next(s, step);
    if w :| 0 <= w < |t.waiters| && t.waiters[w] == Blocked && t.m == map[] {
      BlockedBefore(s, step, w);
      if step.ResolveStep? && !Wakes(s.m, step.result) {
        assert s.m - {step.result.id} == s.m;
      }
    }
  }

  /** No lost wakeup: in every interleaving in which waits do not overlap, whenever the set
      is empty a blocked waiter has a signal pending or a drain about to send one. */
  lemma {:induction false} NoLostWakeup(steps: seq<Step>)
    requires OneAtATime(steps)
    ensures Awake(Run(START, steps))
  {
    if |steps| > 0 {
      NoLostWakeup(steps[..|steps| - 1]);
      StepKeepsAwake(Run(START, steps[..|steps| - 1]), steps[|steps| - 1]);
    }
  }

  /** And that signal does wake it: the drain's signal, if it is still to come, one wakeup
      and one look at the set, and the waiter has returned. */
  lemma WaiterReturns(steps: seq<Step>, w: nat)
    requires OneAtATime(steps)
    requires var s := Run(START, steps); s.m == map[] && w < |s.waiters| && s.waiters[w] == Blocked
    ensures Run(START, steps + [DrainSignal, Wake(w), Look(w)]).waiters[..] ==
            Run(START, steps).waiters[w := Returned]
  {
    NoLostWakeup(steps);
    var all := steps + [DrainSignal, Wake(w), Look(w)];
    var n := |steps|;
    assert all[..n + 2][..n + 1] == all[..n + 1] && all[..n + 1][..n] == steps && all[..|all| - 1] == all[..n + 2];
    var s := Run(START, steps);
    var signalled := Next(s, DrainSignal);
    assert Run(START, all[..n + 1]) == signalled && signalled.done && signalled.m == map[];
    assert Run(START, all[..n + 2]) == Next(signalled, Wake(w));
  }

  ghost predicate Reachable(s: State) {
    exists steps :: Run(START, steps) == s
  }

  lemma Reach(s: State, step: Step) returns (t: State)
    requires Reachable(s)
    ensures t == Next(s, step) && Reachable(t)
  {
    t := Next(s, step);
    var steps :| Run(START, steps) == s;
    var longer := steps + [step];
    assert longer[..|steps|] == steps;
    assert Run(START, longer) == t;
  }

  lemma TwoWaitersBlock(msg: RequestItem) returns (s: State)
    ensures Reachable(s) && s == State(map[msg.id := msg], false, [Blocked, Blocked], 0)
  {
    assert Run(START, []) == START;
    s := Reach(START, StoreStep(msg));
    s := Reach(s, Arrive);
    s := Reach(s, Arrive);
    assert msg.id in s.m;
    s := Reach(s, Look(0));
    s := Reach(s, Look(1));
  }

  /** With two waiters it fails: the one signal of the last removal wakes one of them
      and leaves the other blocked on an empty set with nothing to wake it. */
  lemma TwoWaitersLoseAWakeup(msg: RequestItem) returns (s: State)
    ensures Reachable(s) && |s.waiters| == 2 && !Awake(s)
  {
    s := TwoWaitersBlock(msg);
    s := Reach(s, ResolveStep(ResultItem(msg.id, msg.customId, msg.model, 0, true)));
    assert s.m == map[] && s.done;
    s := Reach(s, Wake(0));
    s := Reach(s, Look(0));
    assert s.waiters[1] == Blocked;
  }
}
