/** Finalization artifacts: what the output and error files of a batch must hold, and
    that they are determined by the entry set alone. */
module Artifacts {
  import opened BatchTypes
  import opened System
  import Integrity

  /** How an entry that never executed is rendered: its request id, its custom id and
      the not-executed code, as one line. */
  type Renderer = (RequestId, string, string) -> Bytes

  /** A failed entry without an error code preserved a response: an output line. */
  function Route(e: Entry): FileKind {
    match e.status
    case EntryCompleted => OutputFile
    case EntryFailed => if e.errorCode == "" then OutputFile else ErrorFile
    case _ => ErrorFile
  }

  predicate AllTerminal(entries: seq<Entry>) {
    forall i :: 0 <= i < |entries| ==> entries[i].Terminal()
  }

  predicate Ascending(entries: seq<Entry>) {
    forall i, j :: 0 <= i < j < |entries| ==> entries[i].ordinal < entries[j].ordinal
  }

  function LineOf(e: Entry, results: map<ResultKey, Bytes>, render: Renderer, code: string): Bytes {
    if e.Terminal() then
      if e.result.Some? && e.result.value.key in results then results[e.result.value.key] else []
    else render(e.requestId, e.customId, code)
  }

  /** The lines of one artifact, in entry order. */
  function Lines(entries: seq<Entry>, results: map<ResultKey, Bytes>, render: Renderer, code: string, kind: FileKind):
    seq<Bytes>
  {
    if |entries| == 0 then []
    else
      var e := entries[|entries| - 1];
      var front := Lines(entries[..|entries| - 1], results, render, code, kind);
      if Route(e) == kind then front + [LineOf(e, results, render, code)] else front
  }

  function Flatten(lines: seq<Bytes>): Bytes {
    if |lines| == 0 then [] else Flatten(lines[..|lines| - 1]) + lines[|lines| - 1]
  }

  /** The artifact of a kind; none at all if no entry routes to it. */
  function Want(entries: seq<Entry>, results: map<ResultKey, Bytes>, render: Renderer, code: string, kind: FileKind):
    Option<Bytes>
  {
    Pack(Lines(entries, results, render, code, kind))
  }

  function Pack(lines: seq<Bytes>): Option<Bytes> {
    if |lines| == 0 then None else Some(Flatten(lines))
  }

  function CountsOf(entries: seq<Entry>): (c: Counts)
    ensures c.total == |entries| == c.completed + c.failed
  {
    if |entries| == 0 then Counts(0, 0, 0)
    else
      var c := CountsOf(entries[..|entries| - 1]);
      if entries[|entries| - 1].status == EntryCompleted
      then Counts(c.total + 1, c.completed + 1, c.failed)
      else Counts(c.total + 1, c.completed, c.failed + 1)
  }

  /** The counts are those of the entry set: all entries, the completed ones, and the
      rest, failed or never executed. */
  lemma {:induction false} CountsMean(entries: seq<Entry>)
    ensures var c := CountsOf(entries);
            && c.total == |entries| && c.completed == Tally(entries, EntryCompleted)
            && c.failed == Tally(entries, EntryFailed) + Tally(entries, Pending) + Tally(entries, InFlight)
  {
    if |entries| > 0 {
      CountsMean(entries[..|entries| - 1]);
    }
  }

  // ---- completeness ----

  /** The entries before n that route to a kind: the position of entry n's line. */
  function Rank(entries: seq<Entry>, kind: FileKind, n: nat): nat
    requires n <= |entries|
  {
    if n == 0 then 0 else Rank(entries, kind, n - 1) + if Route(entries[n - 1]) == kind then 1 else 0
  }

  lemma {:induction false} RankOfPrefix(entries: seq<Entry>, kind: FileKind, n: nat)
    requires n < |entries|
    ensures Rank(entries[..|entries| - 1], kind, n) == Rank(entries, kind, n)
  {
    if n > 0 {
      RankOfPrefix(entries, kind, n - 1);
    }
  }

  lemma {:induction false} LinesCounted(entries: seq<Entry>, results: map<ResultKey, Bytes>, render: Renderer,
                                        code: string, kind: FileKind)
    ensures |Lines(entries, results, render, code, kind)| == Rank(entries, kind, |entries|)
  {
    if |entries| > 0 {
      LinesCounted(entries[..|entries| - 1], results, render, code, kind);
      RankOfPrefix(entries, kind, |entries| - 1);
    }
  }

  lemma {:induction false} RankMonotone(entries: seq<Entry>, kind: FileKind, m: nat, n: nat)
    requires m <= n <= |entries|
    ensures Rank(entries, kind, m) <= Rank(entries, kind, n)
  {
    if m < n {
      RankMonotone(entries, kind, m, n - 1);
    }
  }

  /** Entry i's line sits in its own artifact at its rank. */
  ghost predicate Placed(entries: seq<Entry>, results: map<ResultKey, Bytes>, render: Renderer, code: string, i: nat) {
    && i < |entries|
    && var kind := Route(entries[i]);
       var lines := Lines(entries, results, render, code, kind);
       Rank(entries, kind, i) < |lines| &&
       lines[Rank(entries, kind, i)] == LineOf(entries[i], results, render, code)
  }

  lemma {:induction false} LineAtRank(entries: seq<Entry>, results: map<ResultKey, Bytes>, render: Renderer,
                                      code: string, i: nat)
    requires i < |entries|
    ensures Placed(entries, results, render, code, i)
  {
    var kind := Route(entries[i]);
    var front := entries[..|entries| - 1];
    LinesCounted(front, results, render, code, kind);
    RankOfPrefix(entries, kind, i);
    if i < |entries| - 1 {
      LineAtRank(front, results, render, code, i);
    } else {
      RankOfPrefix(entries, kind, |entries| - 1);
    }
  }

  lemma {:induction false} RanksSum(entries: seq<Entry>, n: nat)
    requires n <= |entries|
    ensures Rank(entries, OutputFile, n) + Rank(entries, ErrorFile, n) == n
  {
    if n > 0 {
      RanksSum(entries, n - 1);
    }
  }

  /** Lines of one artifact keep the order of their entries. */
  ghost predicate InOrder(entries: seq<Entry>, i: nat, j: nat) {
    i < j < |entries| && Route(entries[i]) == Route(entries[j]) ==>
      Rank(entries, Route(entries[i]), i) < Rank(entries, Route(entries[j]), j)
  }

  /** Completeness: every entry contributes exactly one line to exactly one artifact,
      in entry order, and there are no other lines. */
  lemma OneLineEach(entries: seq<Entry>, results: map<ResultKey, Bytes>, render: Renderer, code: string)
    ensures |Lines(entries, results, render, code, OutputFile)| + |Lines(entries, results, render, code, ErrorFile)|
            == |entries|
    ensures forall i: nat :: i < |entries| ==> Placed(entries, results, render, code, i)
    ensures forall i: nat, j: nat :: InOrder(entries, i, j)
  {
    LinesCounted(entries, results, render, code, OutputFile);
    LinesCounted(entries, results, render, code, ErrorFile);
    RanksSum(entries, |entries|);
    forall i: nat | i < |entries| ensures Placed(entries, results, render, code, i) {
      LineAtRank(entries, results, render, code, i);
    }
    forall i: nat, j: nat ensures InOrder(entries, i, j) {
      if i < j < |entries| {
        RankMonotone(entries, Route(entries[i]), i + 1, j);
      }
    }
  }

  // ---- what the files hold, entry by entry ----

  /** The output file is for completed entries and for failed ones whose response was
      preserved, which carry no error code. */
  predicate InOutput(e: Entry) {
    e.status == EntryCompleted || (e.status == EntryFailed && e.errorCode == "")
  }

  /** The error file is for failed entries with a code and for those never executed. */
  predicate InError(e: Entry) {
    (e.status == EntryFailed && e.errorCode != "") || e.status == Pending || e.status == InFlight
  }

  /** What an entry contributes: its result object, or its rendering if it never executed. */
  predicate LineFor(line: Bytes, e: Entry, results: map<ResultKey, Bytes>, render: Renderer, code: string) {
    if e.status == EntryCompleted || e.status == EntryFailed
    then e.result.Some? && e.result.value.key in results && line == results[e.result.value.key]
    else line == render(e.requestId, e.customId, code)
  }

  /** The lines are those of exactly the entries that belong in the file, in entry order. */
  ghost predicate Exactly(lines: seq<Bytes>, chosen: seq<nat>, entries: seq<Entry>, results: map<ResultKey, Bytes>,
                          render: Renderer, code: string, belongs: Entry -> bool)
  {
    && |lines| == |chosen|
    && (forall k, l :: 0 <= k < l < |chosen| ==> chosen[k] < chosen[l])
    && (forall i :: i in chosen ==> i < |entries|)
    && (forall i: nat :: i < |entries| ==> (i in chosen <==> belongs(entries[i])))
    && (forall k :: 0 <= k < |lines| ==> chosen[k] < |entries| && LineFor(lines[k], entries[chosen[k]], results, render, code))
  }

  function Belongs(kind: FileKind): Entry -> bool {
    if kind == OutputFile then InOutput else InError
  }

  lemma ExactlyAdds(lines: seq<Bytes>, chosen: seq<nat>, entries: seq<Entry>, e: Entry, line: Bytes,
                    results: map<ResultKey, Bytes>, render: Renderer, code: string, belongs: Entry -> bool)
    requires Exactly(lines, chosen, entries, results, render, code, belongs) && LineFor(line, e, results, render, code)
    ensures if belongs(e)
            then Exactly(lines + [line], chosen + [|entries|], entries + [e], results, render, code, belongs)
            else Exactly(lines, chosen, entries + [e], results, render, code, belongs)
  {}

  /** The lines of an artifact are those of the entries that belong in it. */
  lemma {:induction false} LinesExactly(entries: seq<Entry>, results: map<ResultKey, Bytes>, render: Renderer,
                                        code: string, kind: FileKind)
    returns (chosen: seq<nat>)
    requires Integrity.EntriesIntact(entries, results)
    ensures Exactly(Lines(entries, results, render, code, kind), chosen, entries, results, render, code, Belongs(kind))
  {
    if |entries| == 0 {
      chosen := [];
    } else {
      var front, e := entries[..|entries| - 1], entries[|entries| - 1];
      chosen := LinesExactly(front, results, render, code, kind);
      ExactlyAdds(Lines(front, results, render, code, kind), chosen, front, e, LineOf(e, results, render, code),
                  results, render, code, Belongs(kind));
      assert entries == front + [e];
      if Belongs(kind)(e) {
        chosen := chosen + [|front|];
      }
    }
  }

  // ---- determined by the entry set ----

  /** The same entries with the same outcomes. */
  ghost predicate SameOutcomes(a: seq<Entry>, b: seq<Entry>) {
    |a| == |b| && forall i :: 0 <= i < |a| ==>
      a[i].status == b[i].status && a[i].result == b[i].result && a[i].errorCode == b[i].errorCode
  }

  /** Once every entry is terminal the artifacts are fixed by the recorded digests:
      whatever later state of the entries and of the store they are assembled from,
      and whatever code would render entries that never executed. */
  lemma {:induction false} ArtifactsFixed(a: seq<Entry>, b: seq<Entry>, before: map<ResultKey, Bytes>,
                                          after: map<ResultKey, Bytes>, render: Renderer, code: string,
                                          other: string, kind: FileKind)
    requires AllTerminal(a) && SameOutcomes(a, b)
    requires Integrity.EntriesIntact(a, before) && Integrity.EntriesIntact(b, after)
    ensures Lines(a, before, render, code, kind) == Lines(b, after, render, other, kind)
    ensures CountsOf(a) == CountsOf(b)
  {
    if |a| > 0 {
      var i := |a| - 1;
      assert a[i].Terminal() && b[i].Terminal();
      assert Sha256(before[a[i].result.value.key]) == Sha256(after[b[i].result.value.key]);
      ArtifactsFixed(a[..i], b[..i], before, after, render, code, other, kind);
    }
  }

  // ---- artifacts of different not-executed codes ----

  const NEWLINE: byte := 10

  predicate IsLine(l: Bytes) {
    |l| > 0 && l[|l| - 1] == NEWLINE && forall i :: 0 <= i < |l| - 1 ==> l[i] != NEWLINE
  }

  predicate AreLines(lines: seq<Bytes>) {
    forall i :: 0 <= i < |lines| ==> IsLine(lines[i])
  }

  lemma LastLineSame(a: Bytes, la: Bytes, b: Bytes, lb: Bytes)
    requires IsLine(la) && IsLine(lb) && a + la == b + lb
    requires |a| > 0 ==> a[|a| - 1] == NEWLINE
    requires |b| > 0 ==> b[|b| - 1] == NEWLINE
    ensures a == b && la == lb
  {
    var whole := a + la;
    assert forall p :: |a| <= p < |whole| - 1 ==> whole[p] == la[p - |a|];
    assert forall p :: |b| <= p < |whole| - 1 ==> whole[p] == lb[p - |b|];
    assert |a| > 0 ==> whole[|a| - 1] == NEWLINE;
    assert |b| > 0 ==> whole[|b| - 1] == NEWLINE;
    assert |a| == |b|;
    assert a == whole[..|a|] && b == (b + lb)[..|b|];
    assert la == whole[|a|..] && lb == (b + lb)[|b|..];
  }

  lemma FlattenEnds(lines: seq<Bytes>)
    requires AreLines(lines)
    ensures |lines| > 0 ==> |Flatten(lines)| > 0 && Flatten(lines)[|Flatten(lines)| - 1] == NEWLINE
  {}

  /** A file of newline-terminated lines determines its lines. */
  lemma {:induction false} FlattenInjective(a: seq<Bytes>, b: seq<Bytes>)
    requires AreLines(a) && AreLines(b) && Flatten(a) == Flatten(b)
    ensures a == b
  {
    FlattenEnds(a);
    FlattenEnds(b);
    if |a| > 0 && |b| > 0 {
      var fa, fb := a[..|a| - 1], b[..|b| - 1];
      FlattenEnds(fa);
      FlattenEnds(fb);
      LastLineSame(Flatten(fa), a[|a| - 1], Flatten(fb), b[|b| - 1]);
      FlattenInjective(fa, fb);
      assert a == fa + [a[|a| - 1]] && b == fb + [b[|b| - 1]];
    }
  }

  /** Results and renderings are single lines, and a rendering shows its code. */
  ghost predicate WellRendered(entries: seq<Entry>, results: map<ResultKey, Bytes>, render: Renderer) {
    && (forall rid, custom, code :: IsLine(render(rid, custom, code)))
    && (forall rid, custom, c, d :: render(rid, custom, c) == render(rid, custom, d) ==> c == d)
    && (forall i :: 0 <= i < |entries| && entries[i].Terminal() ==> IsLine(LineOf(entries[i], results, render, "")))
  }

  lemma {:induction false} LinesAreLines(entries: seq<Entry>, results: map<ResultKey, Bytes>, render: Renderer,
                                         code: string, kind: FileKind)
    requires WellRendered(entries, results, render)
    ensures AreLines(Lines(entries, results, render, code, kind))
  {
    if |entries| > 0 {
      var e := entries[|entries| - 1];
      assert e.Terminal() ==> LineOf(e, results, render, code) == LineOf(e, results, render, "");
      assert IsLine(LineOf(e, results, render, code));
      LinesAreLines(entries[..|entries| - 1], results, render, code, kind);
    }
  }

  lemma {:induction false} SameCodeBlind(entries: seq<Entry>, results: map<ResultKey, Bytes>, render: Renderer,
                                         c: string, d: string, kind: FileKind)
    requires c == d || AllTerminal(entries)
    ensures Lines(entries, results, render, c, kind) == Lines(entries, results, render, d, kind)
  {
    if |entries| > 0 {
      SameCodeBlind(entries[..|entries| - 1], results, render, c, d, kind);
    }
  }

  /** The boundary of idempotent finalization: over the same entries, two codes give
      the same error artifact if and only if they are the same code or no entry was
      left unexecuted. */
  lemma NotExecutedDiverges(entries: seq<Entry>, results: map<ResultKey, Bytes>, render: Renderer,
                            c: string, d: string)
    requires WellRendered(entries, results, render)
    ensures Want(entries, results, render, c, ErrorFile) == Want(entries, results, render, d, ErrorFile)
            <==> c == d || AllTerminal(entries)
  {
    if c == d || AllTerminal(entries) {
      SameCodeBlind(entries, results, render, c, d, ErrorFile);
    } else {
      var i: nat :| i < |entries| && !entries[i].Terminal();
      LinesAreLines(entries, results, render, c, ErrorFile);
      LinesAreLines(entries, results, render, d, ErrorFile);
      LineAtRank(entries, results, render, c, i);
      LineAtRank(entries, results, render, d, i);
      var a := Lines(entries, results, render, c, ErrorFile);
      var b := Lines(entries, results, render, d, ErrorFile);
      assert a[Rank(entries, ErrorFile, i)] != b[Rank(entries, ErrorFile, i)];
      if Flatten(a) == Flatten(b) {
        FlattenInjective(a, b);
        assert false;
      }
    }
  }
}
