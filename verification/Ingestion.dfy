/** Ingestion: the input is split into normalized lines that are copied to the local
    file; each becomes a manifest entry and, if its model is registered, a plan entry
    pointing back at its bytes. */
module Ingestion {
  import opened BatchTypes
  import opened PlanFile
  import opened Artifacts
  import Planner
  import Checkpointer

  /** What extraction yields for a valid request line. */
  datatype Meta = Meta(customId: string, model: string, prefixHash: uint32)

  type Parser = Bytes -> Option<Meta>

  type ErrorRenderer = (RequestId, Meta) -> Bytes

  // ---- lines ----

  /** One past the first newline, or the end of the input. */
  function LineEnd(input: Bytes): (n: nat)
    ensures n <= |input| && (|input| > 0 ==> n > 0)
    ensures forall i :: 0 <= i < n - 1 ==> input[i] != NEWLINE
    ensures n < |input| ==> n > 0 && input[n - 1] == NEWLINE
  {
    if |input| == 0 then 0 else if input[0] == NEWLINE then 1 else 1 + LineEnd(input[1..])
  }

  /** The last line is terminated if the input forgot to. */
  function Normalized(line: Bytes): (l: Bytes)
    requires |line| > 0 && forall i :: 0 <= i < |line| - 1 ==> line[i] != NEWLINE
    ensures IsLine(l)
  {
    if line[|line| - 1] == NEWLINE then line else line + [NEWLINE]
  }

  function SplitLines(input: Bytes): (lines: seq<Bytes>)
    ensures AreLines(lines)
    decreases |input|
  {
    if |input| == 0 then []
    else var n := LineEnd(input); [Normalized(input[..n])] + SplitLines(input[n..])
  }

  /** The first newline at or after pos, or the end, ends the first line there. */
  lemma FirstLine(input: Bytes, pos: nat, next: nat, line: Bytes)
    requires pos < next <= |input| && forall i :: pos <= i < next - 1 ==> input[i] != NEWLINE
    requires next == |input| || input[next - 1] == NEWLINE
    requires line == input[pos..next] + if input[next - 1] == NEWLINE then [] else [NEWLINE]
    ensures IsLine(line) && SplitLines(input[pos..]) == [line] + SplitLines(input[next..])
  {
    var rest := input[pos..];
    var n := LineEnd(rest);
    assert forall i :: 0 <= i < |rest| ==> rest[i] == input[pos + i];
    assert n == next - pos;
    assert rest[..n] == input[pos..next] && rest[n..] == input[next..];
    assert line == Normalized(rest[..n]);
  }

  /** Reads the next line at pos, up to and including its newline. */
  method ReadNormalizedLine(input: Bytes, pos: nat) returns (line: Bytes, done: bool, next: nat)
    requires pos <= |input|
    ensures done <==> pos == |input|
    ensures !done ==> pos < next <= |input| && IsLine(line)
    ensures !done ==> SplitLines(input[pos..]) == [line] + SplitLines(input[next..])
  {
    next := pos;
    while next < |input| && (next == pos || input[next - 1] != NEWLINE)
      invariant pos <= next <= |input|
      invariant forall i :: pos <= i < next - 1 ==> input[i] != NEWLINE
    {
      next := next + 1;
    }
    if next == pos {
      return [], true, next;
    }
    line, done := input[pos..next], false;
    if line[|line| - 1] != NEWLINE {
      line := line + [NEWLINE];
    }
    FirstLine(input, pos, next, line);
  }

  // ---- ingested lines ----

  datatype Line = Line(bytes: Bytes, meta: Meta, accepted: bool)

  function BytesOf(ls: seq<Line>): seq<Bytes> {
    seq(|ls|, i requires 0 <= i < |ls| => ls[i].bytes)
  }

  /** Where line i really starts in the local file. */
  function Start(ls: seq<Line>, i: nat): nat
    requires i <= |ls|
  {
    if i == 0 then 0 else Start(ls, i - 1) + |ls[i - 1].bytes|
  }

  /** Lengths are stored in 32 bits. */
  function Stored(n: nat): uint32 {
    (n % 0x1_0000_0000) as uint32
  }

  /** The running offset of the ingestion loop: an accepted line advances it by its
      stored length, a rejected one by its real length. */
  function Offset(ls: seq<Line>, i: nat): nat
    requires i <= |ls|
  {
    if i == 0 then 0
    else Offset(ls, i - 1) +
         if ls[i - 1].accepted then Stored(|ls[i - 1].bytes|) as nat else |ls[i - 1].bytes|
  }

  predicate Fits(n: nat) {
    n < 0x8000_0000_0000_0000
  }

  function EntryAt(ls: seq<Line>, i: nat): PlanEntry
    requires i < |ls| && Fits(Offset(ls, i))
  {
    PlanEntry(Offset(ls, i) as int64, Stored(|ls[i].bytes|), ls[i].meta.prefixHash)
  }

  lemma {:induction false} OffsetBounded(ls: seq<Line>, i: nat)
    requires i <= |ls|
    ensures Offset(ls, i) <= Start(ls, i)
  {
    if i > 0 {
      OffsetBounded(ls, i - 1);
    }
  }

  predicate Short(ls: seq<Line>, i: nat)
    requires i < |ls|
  {
    ls[i].accepted ==> |ls[i].bytes| < 0x1_0000_0000
  }

  /** Plan entry i covers exactly line i's bytes. */
  predicate Covers(ls: seq<Line>, i: nat)
    requires i < |ls|
  {
    ls[i].accepted ==> Offset(ls, i) == Start(ls, i) && Stored(|ls[i].bytes|) as nat == |ls[i].bytes|
  }

  lemma {:induction false} ShortAligns(ls: seq<Line>, i: nat)
    requires i <= |ls| && forall k: nat :: k < i ==> Short(ls, k)
    ensures Offset(ls, i) == Start(ls, i)
  {
    if i > 0 {
      ShortAligns(ls, i - 1);
      assert Short(ls, i - 1);
    }
  }

  /** Accepted plan entries and rejected lines tile the local file if and only if every
      accepted line is shorter than 2^32 bytes. */
  lemma TilesIffShort(ls: seq<Line>)
    ensures (forall i: nat :: i < |ls| ==> Covers(ls, i)) <==> (forall i: nat :: i < |ls| ==> Short(ls, i))
  {
    if forall i: nat :: i < |ls| ==> Short(ls, i) {
      forall i: nat | i < |ls| ensures Covers(ls, i) {
        ShortAligns(ls, i);
        assert Short(ls, i);
      }
    } else {
      var i: nat :| i < |ls| && !Short(ls, i);
      assert !Covers(ls, i);
    }
  }

  lemma {:induction false} StartMonotone(ls: seq<Line>, i: nat, j: nat)
    requires i <= j <= |ls|
    ensures Start(ls, i) <= Start(ls, j)
  {
    if i < j {
      StartMonotone(ls, i, j - 1);
    }
  }

  /** The lines partition the local file: line i is its bytes from Start(i) to
      Start(i + 1), and the last one ends the file. */
  lemma {:induction false} FileSlices(ls: seq<Line>, i: nat)
    requires i < |ls|
    ensures var file := Flatten(BytesOf(ls));
            && |file| == Start(ls, |ls|)
            && Start(ls, i) <= Start(ls, i + 1) <= |file|
            && file[Start(ls, i)..Start(ls, i + 1)] == ls[i].bytes
    decreases |ls|
  {
    var n := |ls| - 1;
    var front := ls[..n];
    assert BytesOf(ls)[..n] == BytesOf(front);
    StartPrefix(ls, n);
    if i < n {
      StartPrefix(ls, i);
      StartPrefix(ls, i + 1);
      FileSlices(front, i);
      assert Flatten(BytesOf(ls))[..Start(ls, n)] == Flatten(BytesOf(front));
    } else if n > 0 {
      FileSlices(front, 0);
    }
  }

  lemma {:induction false} StartPrefix(ls: seq<Line>, i: nat)
    requires i < |ls|
    ensures Start(ls[..|ls| - 1], i) == Start(ls, i)
  {
    if i > 0 {
      StartPrefix(ls, i - 1);
    }
  }

  function Terminated(input: Bytes): Bytes {
    if |input| == 0 || input[|input| - 1] == NEWLINE then input else input + [NEWLINE]
  }

  lemma TerminatedSplit(input: Bytes, n: nat)
    requires 0 < n <= |input| && (n < |input| ==> input[n - 1] == NEWLINE)
    requires forall i :: 0 <= i < n - 1 ==> input[..n][i] != NEWLINE
    ensures Normalized(input[..n]) + Terminated(input[n..]) == Terminated(input)
  {
    assert input == input[..n] + input[n..];
    if n < |input| {
      assert Normalized(input[..n]) == input[..n];
      assert input[n..][|input| - n - 1] == input[|input| - 1];
    } else {
      assert input[..n] == input && input[n..] == [];
    }
  }

  /** The local copy is the input, terminated. */
  lemma {:induction false} CopiesInput(input: Bytes)
    ensures Flatten(SplitLines(input)) == Terminated(input)
    decreases |input|
  {
    if |input| > 0 {
      var n := LineEnd(input);
      var line, rest := Normalized(input[..n]), input[n..];
      CopiesInput(rest);
      FlattenCons(line, SplitLines(rest));
      TerminatedSplit(input, n);
    }
  }

  lemma {:induction false} FlattenCons(line: Bytes, lines: seq<Bytes>)
    ensures Flatten([line] + lines) == line + Flatten(lines)
  {
    var all := [line] + lines;
    if |lines| == 0 {
      assert all[..0] == [] && all[0] == line;
    } else {
      var front := lines[..|lines| - 1];
      FlattenCons(line, front);
      assert all[..|all| - 1] == [line] + front && all[|all| - 1] == lines[|lines| - 1];
    }
  }

  // ---- plans and manifest of the ingested lines ----

  /** The plan of a model: the entries of its accepted lines, in input order. */
  function PlanUpTo(ls: seq<Line>, model: string, n: nat): seq<PlanEntry>
    requires n <= |ls| && Fits(Start(ls, |ls|))
  {
    if n == 0 then []
    else if ls[n - 1].accepted && ls[n - 1].meta.model == model
    then PlanUpTo(ls, model, n - 1) + [Located(ls, n - 1)]
    else PlanUpTo(ls, model, n - 1)
  }

  function Located(ls: seq<Line>, i: nat): PlanEntry
    requires i < |ls| && Fits(Start(ls, |ls|))
  {
    OffsetBounded(ls, i);
    StartMonotone(ls, i, |ls|);
    EntryAt(ls, i)
  }

  const MODEL_NOT_FOUND := "model_not_found"

  function ManifestOf(batch: string, i: nat, l: Line, render: ErrorRenderer): ManifestEntry {
    var rid := RequestId(batch, l.meta.customId);
    if l.accepted then ManifestEntry(i, l.meta.customId, rid, false, "", [])
    else ManifestEntry(i, l.meta.customId, rid, true, MODEL_NOT_FOUND, render(rid, l.meta))
  }

  ghost predicate Faithful(ls: seq<Line>, parse: Parser, registered: string -> bool) {
    && (forall i :: 0 <= i < |ls| ==>
          parse(ls[i].bytes) == Some(ls[i].meta) && ls[i].accepted == registered(ls[i].meta.model))
    && (forall i, j :: 0 <= i < j < |ls| ==> ls[i].meta.customId != ls[j].meta.customId)
  }

  ghost predicate Manifested(ls: seq<Line>, batch: string, render: ErrorRenderer, manifest: seq<ManifestEntry>) {
    |manifest| == |ls| && forall i :: 0 <= i < |ls| ==> manifest[i] == ManifestOf(batch, i, ls[i], render)
  }

  // ---- extending by one line ----

  lemma {:induction false} PrefixSame(ls: seq<Line>, l: Line, i: nat)
    requires i <= |ls|
    ensures Start(ls + [l], i) == Start(ls, i) && Offset(ls + [l], i) == Offset(ls, i)
  {
    if i > 0 {
      PrefixSame(ls, l, i - 1);
    }
  }

  lemma {:induction false} PlanSame(ls: seq<Line>, l: Line, model: string, n: nat)
    requires n <= |ls| && Fits(Start(ls + [l], |ls| + 1)) && Fits(Start(ls, |ls|))
    ensures PlanUpTo(ls + [l], model, n) == PlanUpTo(ls, model, n)
  {
    if n > 0 {
      PlanSame(ls, l, model, n - 1);
      PrefixSame(ls, l, n - 1);
    }
  }

  lemma BytesAdd(ls: seq<Line>, l: Line)
    ensures BytesOf(ls + [l]) == BytesOf(ls) + [l.bytes]
    ensures Flatten(BytesOf(ls + [l])) == Flatten(BytesOf(ls)) + l.bytes
  {
    var all := BytesOf(ls) + [l.bytes];
    assert BytesOf(ls + [l]) == all;
    assert all[..|all| - 1] == BytesOf(ls);
  }

  lemma OffsetAdds(ls: seq<Line>, l: Line)
    ensures Start(ls + [l], |ls| + 1) == Start(ls, |ls|) + |l.bytes|
    ensures Offset(ls + [l], |ls| + 1) ==
            Offset(ls, |ls|) + if l.accepted then Stored(|l.bytes|) as nat else |l.bytes|
    ensures Offset(ls + [l], |ls|) == Offset(ls, |ls|)
  {
    PrefixSame(ls, l, |ls|);
  }

  lemma PlanAdds(ls: seq<Line>, l: Line, model: string)
    requires Fits(Start(ls, |ls|) + |l.bytes|) && Fits(Start(ls + [l], |ls| + 1))
    ensures PlanUpTo(ls + [l], model, |ls| + 1) ==
            PlanUpTo(ls, model, |ls|) +
            if l.accepted && l.meta.model == model then [Located(ls + [l], |ls|)] else []
  {
    PlanSame(ls, l, model, |ls|);
  }

  /** The entry the loop adds to a plan. */
  function EntryFor(l: Line, offset: nat): PlanEntry
    requires Fits(offset)
  {
    PlanEntry(offset as int64, Stored(|l.bytes|), l.meta.prefixHash)
  }

  lemma PlanGains(ls: seq<Line>, l: Line, offset: nat, model: string)
    requires Fits(Start(ls, |ls|) + |l.bytes|) && Fits(Start(ls + [l], |ls| + 1))
    requires offset == Offset(ls, |ls|) && Fits(offset)
    ensures PlanUpTo(ls + [l], model, |ls| + 1) ==
            PlanUpTo(ls, model, |ls|) + if l.accepted && l.meta.model == model then [EntryFor(l, offset)] else []
  {
    OffsetAdds(ls, l);
    PlanAdds(ls, l, model);
  }

  // ---- the loop ----

  datatype Outcome = Ingested | BadLine(n: nat) | RepeatedId(n: nat)

  /** A preprocessed batch: its lines, the local copy, the manifest and the counters. */
  datatype Prepared = Prepared(
    lines: seq<Line>,
    local: Bytes,
    manifest: seq<ManifestEntry>,
    offset: nat,
    rejected: nat)

  const NOTHING := Prepared([], [], [], 0, 0)

  /** What holds after every line of the loop. */
  ghost predicate Consistent(p: Prepared, batch: string, parse: Parser, registered: string -> bool, render: ErrorRenderer) {
    && Fits(Start(p.lines, |p.lines|))
    && Faithful(p.lines, parse, registered)
    && p.local == Flatten(BytesOf(p.lines)) && |p.local| == Start(p.lines, |p.lines|)
    && Manifested(p.lines, batch, render, p.manifest)
    && p.offset == Offset(p.lines, |p.lines|)
    && p.rejected == Checkpointer.Rejected(p.manifest)
  }

  function Extended(p: Prepared, batch: string, l: Line, render: ErrorRenderer): Prepared {
    Prepared(p.lines + [l], p.local + l.bytes, p.manifest + [ManifestOf(batch, |p.lines|, l, render)],
             p.offset + (if l.accepted then Stored(|l.bytes|) as nat else |l.bytes|),
             p.rejected + if l.accepted then 0 else 1)
  }

  lemma FaithfulAdds(ls: seq<Line>, parse: Parser, registered: string -> bool, l: Line)
    requires Faithful(ls, parse, registered)
    requires parse(l.bytes) == Some(l.meta) && l.accepted == registered(l.meta.model)
    requires forall i :: 0 <= i < |ls| ==> ls[i].meta.customId != l.meta.customId
    ensures Faithful(ls + [l], parse, registered)
  {}

  lemma ManifestAdds(ls: seq<Line>, batch: string, render: ErrorRenderer, manifest: seq<ManifestEntry>, l: Line)
    requires Manifested(ls, batch, render, manifest)
    ensures var m := manifest + [ManifestOf(batch, |ls|, l, render)];
            && Manifested(ls + [l], batch, render, m)
            && Checkpointer.Rejected(m) == Checkpointer.Rejected(manifest) + if l.accepted then 0 else 1
  {
    var m := manifest + [ManifestOf(batch, |ls|, l, render)];
    assert m[..|m| - 1] == manifest;
  }

  lemma ExtendedConsistent(p: Prepared, batch: string, parse: Parser, registered: string -> bool,
                           render: ErrorRenderer, l: Line)
    requires Consistent(p, batch, parse, registered, render)
    requires Fits(|p.local| + |l.bytes|)
    requires parse(l.bytes) == Some(l.meta) && l.accepted == registered(l.meta.model)
    requires forall i :: 0 <= i < |p.lines| ==> p.lines[i].meta.customId != l.meta.customId
    ensures Consistent(Extended(p, batch, l, render), batch, parse, registered, render)
  {
    var e := Extended(p, batch, l, render);
    assert Fits(Start(e.lines, |e.lines|)) && e.offset == Offset(e.lines, |e.lines|) &&
           |e.local| == Start(e.lines, |e.lines|) by {
      OffsetAdds(p.lines, l);
    }
    assert e.local == Flatten(BytesOf(e.lines)) by {
      BytesAdd(p.lines, l);
    }
    FaithfulAdds(p.lines, parse, registered, l);
    ManifestAdds(p.lines, batch, render, p.manifest, l);
  }

  ghost predicate PlansMatch(acc: Planner.PlanAccumulator, ls: seq<Line>)
    requires Fits(Start(ls, |ls|))
    reads acc
  {
    acc.Valid() && forall m :: acc.PlanOf(m) == PlanUpTo(ls, m, |ls|)
  }

  /** The model's plan gains an entry, and no other plan changes. */
  twostate predicate Gained(acc: Planner.PlanAccumulator, gains: bool, model: string, e: PlanEntry, m: string)
    reads acc
  {
    acc.PlanOf(m) == old(acc.PlanOf(m)) + if gains && m == model then [e] else []
  }

  method Accumulate(acc: Planner.PlanAccumulator, l: Line, offset: nat)
    requires Fits(offset) && acc.Valid()
    modifies acc
    ensures acc.Valid() && forall m :: Gained(acc, l.accepted, l.meta.model, EntryFor(l, offset), m)
  {
    if l.accepted {
      acc.AccumulatePlanEntry(l.meta.model, offset as int64, Stored(|l.bytes|), l.meta.prefixHash);
    }
  }

  /** Plans a line if its model is registered. */
  method PlanLine(acc: Planner.PlanAccumulator, ghost ls: seq<Line>, l: Line, offset: nat)
    requires Fits(Start(ls, |ls|)) && Fits(Start(ls, |ls|) + |l.bytes|) && PlansMatch(acc, ls)
    requires offset == Offset(ls, |ls|)
    modifies acc
    ensures Fits(Start(ls + [l], |ls| + 1)) && PlansMatch(acc, ls + [l])
  {
    OffsetAdds(ls, l);
    OffsetBounded(ls, |ls|);
    Accumulate(acc, l, offset);
    forall m ensures acc.PlanOf(m) == PlanUpTo(ls + [l], m, |ls| + 1) {
      PlanGains(ls, l, offset, m);
      assert Gained(acc, l.accepted, l.meta.model, EntryFor(l, offset), m);
    }
  }

  /** The custom ids of the lines so far. */
  ghost predicate Seen(ls: seq<Line>, seen: set<string>) {
    && (forall i :: 0 <= i < |ls| ==> ls[i].meta.customId in seen)
    && (forall id :: id in seen ==> exists i :: 0 <= i < |ls| && ls[i].meta.customId == id)
  }

  lemma SeenAdds(ls: seq<Line>, seen: set<string>, l: Line)
    requires Seen(ls, seen)
    ensures Seen(ls + [l], seen + {l.meta.customId})
  {
    var all := ls + [l];
    forall id | id in seen + {l.meta.customId} ensures exists i :: 0 <= i < |all| && all[i].meta.customId == id {
      if id in seen {
        var i :| 0 <= i < |ls| && ls[i].meta.customId == id;
        assert all[i].meta.customId == id;
      } else {
        assert all[|ls|].meta.customId == id;
      }
    }
  }

  /** The lines parse and their custom ids are all different. */
  ghost predicate Valid(lines: seq<Bytes>, parse: Parser) {
    && (forall i :: 0 <= i < |lines| ==> parse(lines[i]).Some?)
    && (forall i, j :: 0 <= i < j < |lines| && parse(lines[i]).Some? && parse(lines[j]).Some? ==>
          parse(lines[i]).value.customId != parse(lines[j]).value.customId)
  }

  /** The lines ingested so far and those still to come make up the input. */
  ghost predicate Progress(all: seq<Bytes>, rest: seq<Bytes>, p: Prepared, seen: set<string>, batch: string,
                           parse: Parser, registered: string -> bool, render: ErrorRenderer)
  {
    && all == BytesOf(p.lines) + rest && Fits(|Flatten(all)|)
    && Consistent(p, batch, parse, registered, render) && Seen(p.lines, seen)
  }

  /** A refusal names the offending line, and says whether it failed to parse. */
  predicate Names(r: Outcome, all: seq<Bytes>, parse: Parser)
    requires !r.Ingested?
  {
    0 < r.n <= |all| && (r.BadLine? <==> parse(all[r.n - 1]).None?)
  }

  /** One line: validated, deduplicated, and planned or rejected. */
  method IngestLine(ghost all: seq<Bytes>, ghost rest: seq<Bytes>, line: Bytes, p: Prepared, seen: set<string>,
                    batch: string, parse: Parser, registered: string -> bool, render: ErrorRenderer,
                    acc: Planner.PlanAccumulator)
    returns (r: Outcome, q: Prepared, ids: set<string>)
    requires Progress(all, [line] + rest, p, seen, batch, parse, registered, render) && PlansMatch(acc, p.lines)
    modifies acc
    ensures r.Ingested? ==> Progress(all, rest, q, ids, batch, parse, registered, render) && PlansMatch(acc, q.lines)
    ensures !r.Ingested? ==> !Valid(all, parse) && Names(r, all, parse)
  {
    NextLine(all, p.lines, line, rest);
    q, ids := p, seen;
    var parsed := parse(line);
    if parsed.None? {
      return BadLine(|p.lines| + 1), q, ids;
    }
    var meta := parsed.value;
    if meta.customId in seen {
      Repeats(all, p.lines, parse, meta.customId);
      return RepeatedId(|p.lines| + 1), q, ids;
    }
    var l := Line(line, meta, registered(meta.model));
    ExtendedConsistent(p, batch, parse, registered, render, l);
    SeenAdds(p.lines, seen, l);
    BytesAdd(p.lines, l);
    PlanLine(acc, p.lines, l, p.offset);
    q := Extended(p, batch, l, render);
    ids := seen + {meta.customId};
    r := Ingested;
  }

  /** The ingestion loop. It succeeds exactly on valid input; then the local file is the
      terminated input, every line has its manifest entry, and each model's plan holds
      the entries of its accepted lines. */
  method PreProcess(input: Bytes, batch: string, parse: Parser, registered: string -> bool, render: ErrorRenderer)
    returns (r: Outcome, p: Prepared, acc: Planner.PlanAccumulator)
    requires Fits(|input| + 1)
    ensures fresh(acc)
    ensures r.Ingested? <==> Valid(SplitLines(input), parse)
    ensures !r.Ingested? ==> Names(r, SplitLines(input), parse)
    ensures r.Ingested? ==>
              && BytesOf(p.lines) == SplitLines(input) && p.local == Terminated(input)
              && Consistent(p, batch, parse, registered, render) && PlansMatch(acc, p.lines)
  {
    acc := new Planner.PlanAccumulator();
    p := NOTHING;
    var pos, seen: set<string> := 0, {};
    CopiesInput(input);
    ghost var all := SplitLines(input);
    assert input[0..] == input;
    Nothing(all, batch, parse, registered, render);
    while pos < |input|
      invariant pos <= |input| && fresh(acc)
      invariant Progress(all, SplitLines(input[pos..]), p, seen, batch, parse, registered, render)
      invariant PlansMatch(acc, p.lines)
    {
      var line, _, next := ReadNormalizedLine(input, pos);
      r, p, seen := IngestLine(all, SplitLines(input[next..]), line, p, seen, batch, parse, registered, render, acc);
      if !r.Ingested? {
        return;
      }
      pos := next;
    }
    Complete(all, p, seen, batch, parse, registered, render);
    r := Ingested;
  }

  /** Line |ls| of the input, and room for it in a 64-bit offset. */
  lemma NextLine(all: seq<Bytes>, ls: seq<Line>, line: Bytes, rest: seq<Bytes>)
    requires all == BytesOf(ls) + ([line] + rest) && Fits(|Flatten(all)|)
    requires |Flatten(BytesOf(ls))| == Start(ls, |ls|)
    ensures |ls| < |all| && all[|ls|] == line && Fits(Start(ls, |ls|) + |line|)
    ensures all == BytesOf(ls) + [line] + rest
  {
    FlattenJoin(BytesOf(ls), [line] + rest);
    FlattenCons(line, rest);
  }

  lemma {:induction false} FlattenJoin(a: seq<Bytes>, b: seq<Bytes>)
    ensures Flatten(a + b) == Flatten(a) + Flatten(b)
  {
    if |b| == 0 {
      assert a + b == a;
    } else {
      var front := b[..|b| - 1];
      FlattenJoin(a, front);
      assert (a + b)[..|a + b| - 1] == a + front;
    }
  }

  lemma Repeats(all: seq<Bytes>, ls: seq<Line>, parse: Parser, id: string)
    requires |ls| < |all| && (forall i :: 0 <= i < |ls| ==> all[i] == ls[i].bytes && parse(ls[i].bytes) == Some(ls[i].meta))
    requires parse(all[|ls|]).Some? && parse(all[|ls|]).value.customId == id
    requires exists i :: 0 <= i < |ls| && ls[i].meta.customId == id
    ensures !Valid(all, parse)
  {
    var i :| 0 <= i < |ls| && ls[i].meta.customId == id;
    assert all[i] == ls[i].bytes;
  }

  lemma Nothing(all: seq<Bytes>, batch: string, parse: Parser, registered: string -> bool, render: ErrorRenderer)
    requires Fits(|Flatten(all)|)
    ensures Progress(all, all, NOTHING, {}, batch, parse, registered, render)
    ensures forall m :: PlanUpTo([], m, 0) == []
  {
    assert BytesOf([]) + all == all;
  }

  lemma Complete(all: seq<Bytes>, p: Prepared, seen: set<string>, batch: string, parse: Parser,
                 registered: string -> bool, render: ErrorRenderer)
    requires Progress(all, [], p, seen, batch, parse, registered, render)
    ensures BytesOf(p.lines) == all && p.local == Flatten(all) && Valid(all, parse)
  {
    assert BytesOf(p.lines) + [] == BytesOf(p.lines);
  }
}
