/** The dispatcher chain Pre, AIMD, Direct as one machine over unbuffered channels: a
    send is a rendezvous with an idle receiver, each loop handles one item at a time,
    and cancellation, mark outcomes and inference may strike at any moment. */
module Dispatch {

  /** Where a request is. The holder of each stage is one loop of one dispatcher, except
      Working and Answered, which belong to the request's own goroutine. */
  datatype Stage =
    | AtSource
    | PreHolds
    | PreError
    | PreSend
    | AimdHolds
    | AimdHasEndpoint
    | AimdReady
    | AimdError
    | DirectHolds
    | DirectError
    | Working
    | Answered
    | AimdResult
    | AimdHalfReleased
    | AimdReleased
    | PreResult
    | Emitted
    | Dropped
    | Discarded

  datatype Request = Request(model: string, parseError: bool)

  /** How a dispatcher's main loop takes what remains: normally, answering with the
      cancel error, or silently after losing ownership. */
  datatype Mode = Reading | Cancelling | Lost

  datatype Chain = Chain(
    requests: seq<Request>,
    managed: set<string>,
    stage: seq<Stage>,
    next: nat,
    preMode: Mode,
    aimdMode: Mode,
    slots: map<string, int>,
    global: int,
    emitted: seq<nat>,
    preRequests: bool,
    aimdRequests: bool,
    directResults: bool,
    aimdResults: bool,
    results: bool)

  /** The channels of the chain; the flags above say which are closed. */
  datatype Channel = PreRequests | AimdRequests | DirectResults | AimdResults | Results

  /** What the pre-submit checks decide about one request. */
  datatype Verdict = CtxDone | Unparsed | Submit | Duplicate | MarkError | MarkConflict

  datatype Step =
    | PreTake
    | PreDecide(i: nat, verdict: Verdict)
    | PreEmit(i: nat)
    | PreDelegate(i: nat)
    | AcquireEndpoint(i: nat, ok: bool)
    | AcquireGlobal(i: nat, ok: bool)
    | AimdEmit(i: nat)
    | AimdDelegate(i: nat)
    | DirectRoute(i: nat, known: bool)
    | Answer(i: nat)
    | DirectEmit(i: nat)
    | ReleaseEndpoint(i: nat)
    | ReleaseGlobal(i: nat)
    | AimdForward(i: nat)
    | PreForward(i: nat)
    | CloseChannel(ch: Channel)

  function Start(requests: seq<Request>, managed: set<string>): Chain {
    Chain(requests, managed, seq(|requests|, i => AtSource), 0, Reading, Reading,
          map m | m in managed :: 0, 0, [], false, false, false, false, false)
  }

  // ---- who holds what ----

  predicate InPreMain(st: Stage) {
    st == PreHolds || st == PreError || st == PreSend
  }

  predicate InAimdMain(st: Stage) {
    st == AimdHolds || st == AimdHasEndpoint || st == AimdReady || st == AimdError
  }

  predicate InDirectMain(st: Stage) {
    st == DirectHolds || st == DirectError
  }

  predicate InDirect(st: Stage) {
    InDirectMain(st) || st == Working || st == Answered
  }

  predicate InAimdForwarder(st: Stage) {
    st == AimdResult || st == AimdHalfReleased || st == AimdReleased
  }

  predicate InPreForwarder(st: Stage) {
    st == PreResult
  }

  predicate HoldsEndpoint(st: Stage) {
    st == AimdHasEndpoint || st == AimdReady || InDirect(st) || st == AimdResult
  }

  /** Delegated and not yet answered for. */
  predicate HoldsGlobal(st: Stage) {
    st == AimdReady || InDirect(st) || st == AimdResult || st == AimdHalfReleased
  }

  predicate None(s: Chain, p: Stage -> bool) {
    forall i :: 0 <= i < |s.stage| ==> !p(s.stage[i])
  }

  // ---- steps ----

  predicate At(s: Chain, i: nat, st: Stage) {
    i < |s.stage| && i < |s.requests| && s.stage[i] == st
  }

  predicate Enabled(s: Chain, step: Step) {
    match step
    case PreTake => s.next < |s.stage| && None(s, InPreMain)
    case PreDecide(i, verdict) =>
      At(s, i, PreHolds) && (verdict == CtxDone || (verdict == Unparsed <==> s.requests[i].parseError))
    case PreEmit(i) => At(s, i, PreError)
    case PreDelegate(i) => At(s, i, PreSend) && None(s, InAimdMain)
    case AcquireEndpoint(i, ok) => At(s, i, AimdHolds) && (ok || s.requests[i].model in s.managed)
    case AcquireGlobal(i, _) => At(s, i, AimdHasEndpoint)
    case AimdEmit(i) => At(s, i, AimdError) && None(s, InPreForwarder)
    case AimdDelegate(i) => At(s, i, AimdReady) && None(s, InDirectMain)
    case DirectRoute(i, _) => At(s, i, DirectHolds)
    case Answer(i) => At(s, i, Working)
    case DirectEmit(i) => (At(s, i, Answered) || At(s, i, DirectError)) && None(s, InAimdForwarder)
    case ReleaseEndpoint(i) => At(s, i, AimdResult)
    case ReleaseGlobal(i) => At(s, i, AimdHalfReleased)
    case AimdForward(i) => At(s, i, AimdReleased) && None(s, InPreForwarder)
    case PreForward(i) => At(s, i, PreResult)
    case CloseChannel(PreRequests) => s.next == |s.stage| && None(s, InPreMain)
    case CloseChannel(AimdRequests) => s.preRequests && None(s, InAimdMain)
    case CloseChannel(DirectResults) => s.aimdRequests && None(s, InDirect)
    case CloseChannel(AimdResults) => s.aimdRequests && s.directResults && None(s, InAimdForwarder)
    case CloseChannel(Results) => s.preRequests && s.aimdResults && None(s, InPreForwarder)
  }

  /** A semaphore operation on an endpoint; models without one are not gated. */
  function Adjust(slots: map<string, int>, model: string, delta: int): map<string, int> {
    if model in slots then slots[model := slots[model] + delta] else slots
  }

  function Decided(verdict: Verdict): Stage {
    match verdict
    case Submit => PreSend
    case Duplicate => Dropped
    case MarkConflict => Discarded
    case _ => PreError
  }

  function Taken(mode: Mode): Stage {
    match mode
    case Reading => PreHolds
    case Cancelling => PreError
    case Lost => Discarded
  }

  /** The request a step moves, and the stage it moves it to. */
  function Moved(s: Chain, step: Step): nat
    requires Enabled(s, step) && !step.CloseChannel?
  {
    if step.PreTake? then s.next else step.i
  }

  function To(s: Chain, step: Step): Stage
    requires Enabled(s, step) && !step.CloseChannel?
  {
    match step
    case PreTake => Taken(s.preMode)
    case PreDecide(_, verdict) => Decided(verdict)
    case PreEmit(_) => Emitted
    case PreDelegate(_) => if s.aimdMode == Reading then AimdHolds else AimdError
    case AcquireEndpoint(_, ok) => if ok then AimdHasEndpoint else AimdError
    case AcquireGlobal(_, ok) => if ok then AimdReady else AimdError
    case AimdEmit(_) => PreResult
    case AimdDelegate(_) => DirectHolds
    case DirectRoute(_, known) => if known then Working else DirectError
    case Answer(_) => Answered
    case DirectEmit(_) => AimdResult
    case ReleaseEndpoint(_) => AimdHalfReleased
    case ReleaseGlobal(_) => AimdReleased
    case AimdForward(_) => PreResult
    case PreForward(_) => Emitted
  }

  /** What a step does to the endpoint semaphore of its request, and to the global one:
      a failed global acquire gives the endpoint slot back. */
  function EndpointDelta(step: Step): int {
    match step
    case AcquireEndpoint(_, ok) => if ok then 1 else 0
    case AcquireGlobal(_, ok) => if ok then 0 else -1
    case ReleaseEndpoint(_) => -1
    case _ => 0
  }

  function GlobalDelta(step: Step): int {
    match step
    case AcquireGlobal(_, ok) => if ok then 1 else 0
    case ReleaseGlobal(_) => -1
    case _ => 0
  }

  function PreModeAfter(s: Chain, step: Step): Mode {
    if step.PreDecide? && step.verdict == CtxDone then Cancelling
    else if step.PreDecide? && step.verdict == MarkConflict then Lost
    else s.preMode
  }

  function AimdModeAfter(s: Chain, step: Step): Mode {
    if (step.AcquireEndpoint? || step.AcquireGlobal?) && !step.ok then Cancelling else s.aimdMode
  }

  predicate Emits(step: Step) {
    step.PreEmit? || step.PreForward?
  }

  function Next(s: Chain, step: Step): (n: Chain)
    requires Enabled(s, step) && |s.stage| == |s.requests|
    ensures n.requests == s.requests
  {
    if step.CloseChannel? then Closed(s, step.ch) else
    var i := Moved(s, step);
    s.(stage := s.stage[i := To(s, step)],
       next := if step.PreTake? then s.next + 1 else s.next,
       preMode := PreModeAfter(s, step),
       aimdMode := AimdModeAfter(s, step),
       slots := Adjust(s.slots, s.requests[i].model, EndpointDelta(step)),
       global := s.global + GlobalDelta(step),
       emitted := if Emits(step) then s.emitted + [i] else s.emitted)
  }

  function Closed(s: Chain, ch: Channel): Chain {
    match ch
    case PreRequests => s.(preRequests := true)
    case AimdRequests => s.(aimdRequests := true)
    case DirectResults => s.(directResults := true)
    case AimdResults => s.(aimdResults := true)
    case Results => s.(results := true)
  }

  predicate IsClosed(s: Chain, ch: Channel) {
    match ch
    case PreRequests => s.preRequests
    case AimdRequests => s.aimdRequests
    case DirectResults => s.directResults
    case AimdResults => s.aimdResults
    case Results => s.results
  }

  /** The channel a step sends on. */
  predicate SendsOn(step: Step, ch: Channel) {
    match step
    case PreEmit(_) => ch == Results
    case PreDelegate(_) => ch == PreRequests
    case AimdEmit(_) => ch == AimdResults
    case AimdDelegate(_) => ch == AimdRequests
    case DirectEmit(_) => ch == DirectResults
    case AimdForward(_) => ch == AimdResults
    case PreForward(_) => ch == Results
    case _ => false
  }

  function Run(s: Chain, steps: seq<Step>): Chain {
    if |steps| == 0 then s
    else
      var t := Run(s, steps[..|steps| - 1]);
      if |t.stage| == |t.requests| && Enabled(t, steps[|steps| - 1]) then Next(t, steps[|steps| - 1]) else t
  }

  // ---- counting slots ----

  predicate Holder(requests: seq<Request>, stage: seq<Stage>, i: nat, model: string)
    requires i < |requests| && i < |stage|
  {
    HoldsEndpoint(stage[i]) && requests[i].model == model
  }

  function EndpointHolders(requests: seq<Request>, stage: seq<Stage>, model: string): nat
    requires |stage| <= |requests|
  {
    if |stage| == 0 then 0
    else EndpointHolders(requests, stage[..|stage| - 1], model) +
         if Holder(requests, stage, |stage| - 1, model) then 1 else 0
  }

  function GlobalHolders(stage: seq<Stage>): nat {
    if |stage| == 0 then 0
    else GlobalHolders(stage[..|stage| - 1]) + if HoldsGlobal(stage[|stage| - 1]) then 1 else 0
  }

  function Bit(b: bool): int {
    if b then 1 else 0
  }

  lemma {:induction false} EndpointMove(requests: seq<Request>, stage: seq<Stage>, i: nat, st: Stage, model: string)
    requires |stage| <= |requests| && i < |stage|
    ensures var moved := stage[i := st];
            EndpointHolders(requests, moved, model) ==
            EndpointHolders(requests, stage, model) - Bit(Holder(requests, stage, i, model)) +
            Bit(Holder(requests, moved, i, model))
  {
    var last := |stage| - 1;
    if i == last {
      assert stage[i := st][..last] == stage[..last];
    } else {
      assert stage[i := st][..last] == stage[..last][i := st];
      EndpointMove(requests, stage[..last], i, st, model);
    }
  }

  lemma {:induction false} GlobalMove(stage: seq<Stage>, i: nat, st: Stage)
    requires i < |stage|
    ensures GlobalHolders(stage[i := st]) == GlobalHolders(stage) - Bit(HoldsGlobal(stage[i])) + Bit(HoldsGlobal(st))
  {
    var last := |stage| - 1;
    if i == last {
      assert stage[i := st][..last] == stage[..last];
    } else {
      assert stage[i := st][..last] == stage[..last][i := st];
      GlobalMove(stage[..last], i, st);
    }
  }

  // ---- the invariants ----

  ghost predicate SlotsMatch(s: Chain) {
    && |s.stage| == |s.requests|
    && s.slots.Keys == s.managed
    && s.global == GlobalHolders(s.stage)
    && forall m :: m in s.slots ==> s.slots[m] == EndpointHolders(s.requests, s.stage, m)
  }

  ghost predicate SourceInv(s: Chain) {
    && s.next <= |s.stage| == |s.requests|
    && forall i :: 0 <= i < |s.stage| ==> (s.stage[i] == AtSource <==> s.next <= i)
  }

  /** A closed channel has no sender left: everything upstream of it is empty. */
  ghost predicate ClosedInv(s: Chain) {
    && (s.preRequests ==> s.next == |s.stage| && None(s, InPreMain))
    && (s.aimdRequests ==> s.preRequests && None(s, InAimdMain))
    && (s.directResults ==> s.aimdRequests && None(s, InDirect))
    && (s.aimdResults ==> s.directResults && None(s, InAimdForwarder))
    && (s.results ==> s.aimdResults && None(s, InPreForwarder))
  }

  /** Exactly the emitted requests are in the output, each once; requests are discarded
      only after ownership was lost. */
  ghost predicate OutputInv(s: Chain) {
    && (forall i :: 0 <= i < |s.stage| ==> (s.stage[i] == Emitted <==> i in s.emitted))
    && (forall x :: 0 <= x < |s.emitted| ==> s.emitted[x] < |s.stage|)
    && (forall x, y :: 0 <= x < y < |s.emitted| ==> s.emitted[x] != s.emitted[y])
    && (forall i :: 0 <= i < |s.stage| && s.stage[i] == Discarded ==> s.preMode == Lost)
  }

  /** Pre's main loop holds one request at a time, and none once ownership is lost. */
  ghost predicate PreInv(s: Chain) {
    && (forall i, j :: 0 <= i < j < |s.stage| ==> !InPreMain(s.stage[i]) || !InPreMain(s.stage[j]))
    && (s.preMode == Lost ==> None(s, InPreMain))
  }

  // ---- what one step does to the stage of its request ----

  lemma StageFacts(s: Chain, step: Step)
    requires SourceInv(s) && Enabled(s, step) && !step.CloseChannel?
    ensures Moved(s, step) < |s.stage|
    ensures var from, to := s.stage[Moved(s, step)], To(s, step);
            && to != AtSource && (from == AtSource <==> step.PreTake?)
            && from != Emitted && from != Discarded && (to == Emitted <==> Emits(step))
            && (to == Discarded ==> PreModeAfter(s, step) == Lost)
  {}

  /** Each stage is entered only from the one upstream of it. */
  lemma StageOrder(s: Chain, step: Step)
    requires SourceInv(s) && Enabled(s, step) && !step.CloseChannel?
    ensures var from, to := s.stage[Moved(s, step)], To(s, step);
            && (InPreMain(to) ==> InPreMain(from) || (step.PreTake? && None(s, InPreMain) && s.preMode != Lost))
            && (InAimdMain(to) ==> InAimdMain(from) || InPreMain(from))
            && (InDirect(to) ==> InDirect(from) || InAimdMain(from))
            && (InAimdForwarder(to) ==> InAimdForwarder(from) || InDirect(from))
            && (InPreForwarder(to) ==> InAimdForwarder(from) || InAimdMain(from))
  {}

  lemma StageSlots(s: Chain, step: Step)
    requires SourceInv(s) && Enabled(s, step) && !step.CloseChannel?
    ensures var from, to := s.stage[Moved(s, step)], To(s, step);
            && GlobalDelta(step) == Bit(HoldsGlobal(to)) - Bit(HoldsGlobal(from))
            && EndpointDelta(step) == Bit(HoldsEndpoint(to)) - Bit(HoldsEndpoint(from))
  {}

  lemma StageMode(s: Chain, step: Step)
    requires SourceInv(s) && Enabled(s, step) && !step.CloseChannel?
    ensures var from, to := s.stage[Moved(s, step)], To(s, step);
            && (PreModeAfter(s, step) == Lost && s.preMode != Lost ==> InPreMain(from) && !InPreMain(to))
            && (s.preMode == Lost && !InPreMain(from) ==> PreModeAfter(s, step) == Lost)
  {}

  // ---- each invariant survives a request's move ----

  lemma SlotsMoved(s: Chain, n: Chain, i: nat, to: Stage, endpoint: int, global: int)
    requires SlotsMatch(s) && i < |s.stage|
    requires n.stage == s.stage[i := to] && n.requests == s.requests && n.managed == s.managed
    requires n.slots == Adjust(s.slots, s.requests[i].model, endpoint) && n.global == s.global + global
    requires global == Bit(HoldsGlobal(to)) - Bit(HoldsGlobal(s.stage[i]))
    requires endpoint == Bit(HoldsEndpoint(to)) - Bit(HoldsEndpoint(s.stage[i]))
    ensures SlotsMatch(n)
  {
    GlobalMove(s.stage, i, to);
    forall m | m in n.slots ensures n.slots[m] == EndpointHolders(n.requests, n.stage, m) {
      EndpointMove(s.requests, s.stage, i, to, m);
    }
  }

  lemma SourceMoved(s: Chain, n: Chain, i: nat, to: Stage)
    requires SourceInv(s) && i < |s.stage| && to != AtSource
    requires n.stage == s.stage[i := to] && n.requests == s.requests
    requires if s.stage[i] == AtSource then i == s.next && n.next == s.next + 1 else n.next == s.next
    ensures SourceInv(n)
  {}

  ghost predicate SameFlags(s: Chain, n: Chain) {
    n.preRequests == s.preRequests && n.aimdRequests == s.aimdRequests && n.directResults == s.directResults &&
    n.aimdResults == s.aimdResults && n.results == s.results
  }

  lemma ClosedMoved(s: Chain, n: Chain, i: nat, to: Stage)
    requires ClosedInv(s) && SourceInv(s) && i < |s.stage| && n.stage == s.stage[i := to] && SameFlags(s, n)
    requires s.next <= n.next <= |s.stage|
    requires InPreMain(to) ==> InPreMain(s.stage[i]) || s.next < |s.stage|
    requires InAimdMain(to) ==> InAimdMain(s.stage[i]) || InPreMain(s.stage[i])
    requires InDirect(to) ==> InDirect(s.stage[i]) || InAimdMain(s.stage[i])
    requires InAimdForwarder(to) ==> InAimdForwarder(s.stage[i]) || InDirect(s.stage[i])
    requires InPreForwarder(to) ==> InAimdForwarder(s.stage[i]) || InAimdMain(s.stage[i])
    ensures ClosedInv(n)
  {
    NoneMoved(s, n, i, to, InPreMain);
    NoneMoved(s, n, i, to, InAimdMain);
    NoneMoved(s, n, i, to, InDirect);
    NoneMoved(s, n, i, to, InAimdForwarder);
    NoneMoved(s, n, i, to, InPreForwarder);
  }

  lemma NoneMoved(s: Chain, n: Chain, i: nat, to: Stage, p: Stage -> bool)
    requires i < |s.stage| && n.stage == s.stage[i := to]
    ensures None(s, p) && !p(to) ==> None(n, p)
    ensures None(s, p) ==> !p(s.stage[i])
  {}

  lemma OutputMoved(s: Chain, n: Chain, i: nat, to: Stage)
    requires OutputInv(s) && i < |s.stage| && n.stage == s.stage[i := to]
    requires s.stage[i] != Emitted && n.emitted == if to == Emitted then s.emitted + [i] else s.emitted
    requires (to == Discarded ==> n.preMode == Lost) && (s.preMode == Lost ==> n.preMode == Lost)
    ensures OutputInv(n)
  {}

  lemma PreMoved(s: Chain, n: Chain, i: nat, to: Stage)
    requires PreInv(s) && i < |s.stage| && n.stage == s.stage[i := to]
    requires InPreMain(to) ==> InPreMain(s.stage[i]) || (None(s, InPreMain) && s.preMode != Lost)
    requires n.preMode == Lost && s.preMode != Lost ==> InPreMain(s.stage[i]) && !InPreMain(to)
    requires s.preMode == Lost ==> n.preMode == Lost
    ensures PreInv(n)
  {}

  ghost predicate ChainInv(s: Chain) {
    SourceInv(s) && PreInv(s) && SlotsMatch(s) && ClosedInv(s) && OutputInv(s)
  }

  lemma {:induction false} NoHolders(requests: seq<Request>, stage: seq<Stage>, model: string)
    requires |stage| <= |requests|
    requires forall i :: 0 <= i < |stage| ==> !HoldsEndpoint(stage[i]) && !HoldsGlobal(stage[i])
    ensures EndpointHolders(requests, stage, model) == 0 && GlobalHolders(stage) == 0
  {
    if |stage| > 0 {
      NoHolders(requests, stage[..|stage| - 1], model);
    }
  }

  lemma StartInv(requests: seq<Request>, managed: set<string>)
    ensures ChainInv(Start(requests, managed))
  {
    var s := Start(requests, managed);
    NoHolders(requests, s.stage, "");
    forall m | m in managed ensures EndpointHolders(requests, s.stage, m) == 0 {
      NoHolders(requests, s.stage, m);
    }
  }

  lemma CloseKeeps(s: Chain, ch: Channel)
    requires ChainInv(s) && Enabled(s, CloseChannel(ch))
    ensures ChainInv(Closed(s, ch))
  {}

  lemma MoveKeeps(s: Chain, step: Step)
    requires ChainInv(s) && Enabled(s, step) && !step.CloseChannel?
    ensures ChainInv(Next(s, step))
  {
    var n, i, to := Next(s, step), Moved(s, step), To(s, step);
    StageFacts(s, step);
    StageOrder(s, step);
    StageSlots(s, step);
    StageMode(s, step);
    assert s.preMode == Lost ==> !InPreMain(s.stage[i]);
    SlotsMoved(s, n, i, to, EndpointDelta(step), GlobalDelta(step));
    SourceMoved(s, n, i, to);
    ClosedMoved(s, n, i, to);
    PreMoved(s, n, i, to);
    OutputMoved(s, n, i, to);
  }

  lemma {:induction false} ChainAlways(requests: seq<Request>, managed: set<string>, steps: seq<Step>)
    ensures ChainInv(Run(Start(requests, managed), steps))
  {
    if |steps| == 0 {
      StartInv(requests, managed);
    } else {
      ChainAlways(requests, managed, steps[..|steps| - 1]);
      var s, step := Run(Start(requests, managed), steps[..|steps| - 1]), steps[|steps| - 1];
      if Enabled(s, step) {
        if step.CloseChannel? {
          CloseKeeps(s, step.ch);
        } else {
          MoveKeeps(s, step);
        }
      }
    }
  }

  // ---- what follows ----

  /** Nothing is ever sent on a closed channel. */
  lemma NeverSendsAfterClose(requests: seq<Request>, managed: set<string>, steps: seq<Step>, step: Step, ch: Channel)
    requires Enabled(Run(Start(requests, managed), steps), step) && SendsOn(step, ch)
    ensures !IsClosed(Run(Start(requests, managed), steps), ch)
  {
    ChainAlways(requests, managed, steps);
  }

  lemma {:induction false} HolderCounted(requests: seq<Request>, stage: seq<Stage>, i: nat, model: string)
    requires |stage| <= |requests| && i < |stage|
    ensures Holder(requests, stage, i, model) ==> EndpointHolders(requests, stage, model) > 0
    ensures HoldsGlobal(stage[i]) ==> GlobalHolders(stage) > 0
  {
    if i < |stage| - 1 {
      HolderCounted(requests, stage[..|stage| - 1], i, model);
    }
  }

  /** Slots held are the delegated and unanswered requests, in every state; and no
      slot is released without a matching acquire. */
  lemma SlotsConserved(requests: seq<Request>, managed: set<string>, steps: seq<Step>, step: Step)
    ensures SlotsMatch(Run(Start(requests, managed), steps))
    ensures var s := Run(Start(requests, managed), steps);
            Enabled(s, step) ==>
              && (step.ReleaseGlobal? ==> s.global > 0)
              && (step.ReleaseEndpoint? && s.requests[step.i].model in s.slots ==> s.slots[s.requests[step.i].model] > 0)
  {
    ChainAlways(requests, managed, steps);
    var s := Run(Start(requests, managed), steps);
    if Enabled(s, step) && (step.ReleaseGlobal? || step.ReleaseEndpoint?) {
      HolderCounted(s.requests, s.stage, step.i, s.requests[step.i].model);
    }
  }

  lemma FinalStage(s: Chain, i: nat)
    requires ChainInv(s) && s.results && i < |s.stage|
    ensures s.stage[i] == Emitted || s.stage[i] == Dropped || s.stage[i] == Discarded
  {
    var st := s.stage[i];
    assert st != AtSource && !InPreMain(st) && !InAimdMain(st) && !InDirect(st) && !InAimdForwarder(st);
    assert !InPreForwarder(st);
  }

  lemma {:induction false} RequestsStay(s: Chain, steps: seq<Step>)
    ensures Run(s, steps).requests == s.requests
  {
    if |steps| > 0 {
      RequestsStay(s, steps[..|steps| - 1]);
    }
  }

  /** Conservation: when the chain has closed its results, every request has exactly one
      result in the output, except a dropped duplicate and, only if ownership was lost,
      a discarded one; and every semaphore slot has been given back. */
  lemma OneResultPerRequest(requests: seq<Request>, managed: set<string>, steps: seq<Step>)
    requires Run(Start(requests, managed), steps).results
    ensures var s := Run(Start(requests, managed), steps);
            && s.requests == requests && |s.stage| == |requests|
            && (forall x, y :: 0 <= x < y < |s.emitted| ==> s.emitted[x] != s.emitted[y])
            && (forall i :: 0 <= i < |s.stage| ==>
                  i in s.emitted || s.stage[i] == Dropped || (s.stage[i] == Discarded && s.preMode == Lost))
            && (forall i :: i in s.emitted ==> i < |s.stage| && s.stage[i] == Emitted)
            && s.global == 0 && (forall m :: m in s.slots ==> s.slots[m] == 0)
  {
    ChainAlways(requests, managed, steps);
    RequestsStay(Start(requests, managed), steps);
    var s := Run(Start(requests, managed), steps);
    forall i | 0 <= i < |s.stage|
      ensures s.stage[i] == Emitted || s.stage[i] == Dropped || s.stage[i] == Discarded
    {
      FinalStage(s, i);
    }
    NoHolders(s.requests, s.stage, "");
    forall m | m in s.slots ensures s.slots[m] == 0 {
      NoHolders(s.requests, s.stage, m);
    }
  }

  // ---- the chain always comes to its end ----

  /** A step that moves a request or closes a channel that was open. */
  predicate Progresses(s: Chain, step: Step) {
    Enabled(s, step) && (step.CloseChannel? ==> !IsClosed(s, step.ch))
  }

  /** How far a request still is from its end. */
  function Rank(st: Stage): nat {
    match st
    case AtSource => 16
    case PreHolds => 15
    case PreSend => 14
    case AimdHolds => 13
    case AimdHasEndpoint => 12
    case AimdReady => 11
    case DirectHolds => 10
    case Working => 9
    case Answered => 8
    case DirectError => 8
    case AimdResult => 7
    case AimdHalfReleased => 6
    case AimdReleased => 5
    case AimdError => 5
    case PreResult => 4
    case PreError => 1
    case _ => 0
  }

  function Ranks(stage: seq<Stage>): nat {
    if |stage| == 0 then 0 else Ranks(stage[..|stage| - 1]) + Rank(stage[|stage| - 1])
  }

  function OpenChannels(s: Chain): nat {
    (if s.preRequests then 0 else 1) + (if s.aimdRequests then 0 else 1) + (if s.directResults then 0 else 1) +
    (if s.aimdResults then 0 else 1) + (if s.results then 0 else 1)
  }

  /** Steps the chain can still take. */
  function Remaining(s: Chain): nat {
    Ranks(s.stage) + OpenChannels(s)
  }

  lemma {:induction false} RanksMove(stage: seq<Stage>, i: nat, st: Stage)
    requires i < |stage|
    ensures Ranks(stage[i := st]) == Ranks(stage) - Rank(stage[i]) + Rank(st)
  {
    var last := |stage| - 1;
    if i == last {
      assert stage[i := st][..last] == stage[..last];
    } else {
      assert stage[i := st][..last] == stage[..last][i := st];
      RanksMove(stage[..last], i, st);
    }
  }

  lemma RankFalls(s: Chain, step: Step)
    requires SourceInv(s) && Enabled(s, step) && !step.CloseChannel?
    ensures Moved(s, step) < |s.stage| && Rank(To(s, step)) < Rank(s.stage[Moved(s, step)])
  {}

  /** Every step that does something brings the end closer. */
  lemma StepsRunOut(s: Chain, step: Step)
    requires ChainInv(s) && Progresses(s, step)
    ensures Remaining(Next(s, step)) < Remaining(s)
  {
    if !step.CloseChannel? {
      RankFalls(s, step);
      RanksMove(s.stage, Moved(s, step), To(s, step));
    }
  }

  /** How many steps of a run moved anything. */
  function Moves(s: Chain, steps: seq<Step>): nat {
    if |steps| == 0 then 0
    else Moves(s, steps[..|steps| - 1]) + if Progresses(Run(s, steps[..|steps| - 1]), steps[|steps| - 1]) then 1 else 0
  }

  lemma {:induction false} RanksAtStart(stage: seq<Stage>)
    requires forall i :: 0 <= i < |stage| ==> stage[i] == AtSource
    ensures Ranks(stage) == 16 * |stage|
  {
    if |stage| > 0 {
      RanksAtStart(stage[..|stage| - 1]);
    }
  }

  lemma ClosedAgain(s: Chain, step: Step)
    requires |s.stage| == |s.requests| && Enabled(s, step) && !Progresses(s, step)
    ensures Next(s, step) == s
  {}

  /** No run goes on for ever: sixteen steps a request and one a channel are all there are. */
  lemma {:induction false} StepsBounded(requests: seq<Request>, managed: set<string>, steps: seq<Step>)
    ensures Moves(Start(requests, managed), steps) + Remaining(Run(Start(requests, managed), steps)) <= 16 * |requests| + 5
  {
    if |steps| == 0 {
      RanksAtStart(Start(requests, managed).stage);
    } else {
      StepsBounded(requests, managed, steps[..|steps| - 1]);
      ChainAlways(requests, managed, steps[..|steps| - 1]);
      var s, step := Run(Start(requests, managed), steps[..|steps| - 1]), steps[|steps| - 1];
      if Progresses(s, step) {
        StepsRunOut(s, step);
      } else if Enabled(s, step) {
        ClosedAgain(s, step);
      }
    }
  }

  lemma SomeHolder(s: Chain, p: Stage -> bool) returns (i: nat)
    requires !None(s, p)
    ensures i < |s.stage| && p(s.stage[i])
  {
    i :| i < |s.stage| && p(s.stage[i]);
  }

  /** Whatever holds a request downstream of the dispatching loops can move on. */
  lemma ForwardersMove(s: Chain) returns (step: Step)
    requires ChainInv(s) && !(None(s, InPreForwarder) && None(s, InAimdForwarder))
    ensures Progresses(s, step)
  {
    if !None(s, InPreForwarder) {
      var i := SomeHolder(s, InPreForwarder);
      step := PreForward(i);
    } else {
      var i := SomeHolder(s, InAimdForwarder);
      step := if s.stage[i] == AimdResult then ReleaseEndpoint(i)
              else if s.stage[i] == AimdHalfReleased then ReleaseGlobal(i) else AimdForward(i);
    }
  }

  lemma DirectMoves(s: Chain) returns (step: Step)
    requires ChainInv(s) && None(s, InAimdForwarder) && !None(s, InDirect)
    ensures Progresses(s, step)
  {
    var i := SomeHolder(s, InDirect);
    step := if s.stage[i] == DirectHolds then DirectRoute(i, true)
            else if s.stage[i] == Working then Answer(i) else DirectEmit(i);
  }

  lemma MainLoopsMove(s: Chain) returns (step: Step)
    requires ChainInv(s) && None(s, InPreForwarder) && None(s, InDirect)
    requires !(None(s, InAimdMain) && None(s, InPreMain))
    ensures Progresses(s, step)
  {
    if !None(s, InAimdMain) {
      var i := SomeHolder(s, InAimdMain);
      step := if s.stage[i] == AimdHolds then AcquireEndpoint(i, true)
              else if s.stage[i] == AimdHasEndpoint then AcquireGlobal(i, true)
              else if s.stage[i] == AimdReady then AimdDelegate(i) else AimdEmit(i);
    } else {
      var i := SomeHolder(s, InPreMain);
      step := if s.stage[i] == PreHolds then PreDecide(i, CtxDone)
              else if s.stage[i] == PreError then PreEmit(i) else PreDelegate(i);
    }
  }

  lemma ChannelsClose(s: Chain) returns (step: Step)
    requires ChainInv(s) && !s.results && s.next == |s.stage|
    requires None(s, InPreMain) && None(s, InAimdMain) && None(s, InDirect) && None(s, InAimdForwarder) && None(s, InPreForwarder)
    ensures Progresses(s, step)
  {
    step := CloseChannel(if !s.preRequests then PreRequests else if !s.aimdRequests then AimdRequests
                         else if !s.directResults then DirectResults else if !s.aimdResults then AimdResults else Results);
  }

  /** The chain is never stuck: until its results are closed, some step is possible. */
  lemma NeverStuck(s: Chain) returns (step: Step)
    requires ChainInv(s) && !s.results
    ensures Progresses(s, step)
  {
    if !(None(s, InPreForwarder) && None(s, InAimdForwarder)) {
      step := ForwardersMove(s);
    } else if !None(s, InDirect) {
      step := DirectMoves(s);
    } else if !(None(s, InAimdMain) && None(s, InPreMain)) {
      step := MainLoopsMove(s);
    } else if s.next < |s.stage| {
      step := PreTake;
    } else {
      step := ChannelsClose(s);
    }
  }

  lemma Continues(s: Chain, steps: seq<Step>, step: Step)
    ensures Run(s, steps + [step]) ==
            var t := Run(s, steps);
            if |t.stage| == |t.requests| && Enabled(t, step) then Next(t, step) else t
  {
    assert (steps + [step])[..|steps|] == steps;
  }

  /** From wherever it is, the chain can close its results; and since every step brings
      that closer and none is ever missing, it does as long as it keeps moving. */
  lemma {:induction false} CanAlwaysFinish(requests: seq<Request>, managed: set<string>, steps: seq<Step>)
    returns (longer: seq<Step>)
    ensures |steps| <= |longer| && longer[..|steps|] == steps
    ensures Run(Start(requests, managed), longer).results
    decreases Remaining(Run(Start(requests, managed), steps))
  {
    var s := Run(Start(requests, managed), steps);
    ChainAlways(requests, managed, steps);
    if s.results {
      longer := steps;
    } else {
      var step := NeverStuck(s);
      Continues(Start(requests, managed), steps, step);
      StepsRunOut(s, step);
      longer := CanAlwaysFinish(requests, managed, steps + [step]);
      assert longer[..|steps|] == longer[..|steps| + 1][..|steps|] == steps;
    }
  }

  // ---- what never leaves the pre-dispatcher ----

  /** A request whose line does not parse is answered or discarded without being sent on. */
  predicate KeptBack(st: Stage) {
    st == AtSource || st == PreHolds || st == PreError || st == Emitted || st == Discarded
  }

  ghost predicate UnparsedKept(s: Chain) {
    && |s.stage| == |s.requests|
    && forall i :: 0 <= i < |s.stage| && s.requests[i].parseError ==> KeptBack(s.stage[i])
  }

  lemma UnparsedMove(s: Chain, step: Step)
    requires SourceInv(s) && Enabled(s, step) && !step.CloseChannel?
    ensures var i := Moved(s, step);
            i < |s.stage| && (s.requests[i].parseError && KeptBack(s.stage[i]) ==> KeptBack(To(s, step)))
  {}

  lemma UnparsedStep(s: Chain, step: Step)
    requires UnparsedKept(s) && SourceInv(s) && Enabled(s, step)
    ensures UnparsedKept(Next(s, step))
  {
    if !step.CloseChannel? {
      UnparsedMove(s, step);
      assert Next(s, step).stage == s.stage[Moved(s, step) := To(s, step)];
    }
  }

  /** In every run a request whose line does not parse never reaches another dispatcher,
      so it takes no semaphore and is never submitted. */
  lemma {:induction false} UnparsedNeverSubmitted(requests: seq<Request>, managed: set<string>, steps: seq<Step>)
    ensures UnparsedKept(Run(Start(requests, managed), steps))
  {
    if |steps| > 0 {
      UnparsedNeverSubmitted(requests, managed, steps[..|steps| - 1]);
      ChainAlways(requests, managed, steps[..|steps| - 1]);
      var s := Run(Start(requests, managed), steps[..|steps| - 1]);
      if Enabled(s, steps[|steps| - 1]) {
        UnparsedStep(s, steps[|steps| - 1]);
      }
    }
  }
}
