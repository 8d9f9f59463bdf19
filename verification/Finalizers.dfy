/** Finalizers of one batch side by side: an owner and the zombies it displaced, each
    opening, committing and recording both artifacts, every effect interleaved with the
    others' and any of them stopping anywhere. The commit is create-only. */
module Finalizers {
  import opened BatchTypes
  import opened Artifacts
  import Finalizer
  import Integrity

  /** One artifact of one finalizer: not written to yet, opened as new or as already
      there, its object in place, recorded, or failed because another finalizer created
      the object after the open, or because what is stored differs. */
  datatype Progress = Unopened | New | Existing | Placed | Done | LostRace | Differs

  /** Artifact objects and file records, as in the sequential store. */
  datatype Shelf = Shelf(objects: map<FileId, Bytes>, records: map<FileId, nat>)

  datatype State = State(shelf: Shelf, progress: map<(nat, FileKind), Progress>)

  /** A finalizer is a number. */
  datatype Step =
    | Open(who: nat, kind: FileKind)
    | Commit(who: nat, kind: FileKind)
    | Record(who: nat, kind: FileKind)

  function At(s: State, who: nat, kind: FileKind): Progress {
    if (who, kind) in s.progress then s.progress[(who, kind)] else Unopened
  }

  function WantOf(files: Finalizer.Files, kind: FileKind): Option<Bytes> {
    if kind == OutputFile then files.out else files.err
  }

  /** An artifact that no entry routes to is never opened. */
  predicate Enabled(s: State, files: Finalizer.Files, step: Step) {
    && WantOf(files, step.kind).Some?
    && match step
       case Open(who, kind) => At(s, who, kind) == Unopened
       case Commit(who, kind) => At(s, who, kind) == New || At(s, who, kind) == Existing
       case Record(who, kind) => At(s, who, kind) == Placed
  }

  function Opened(shelf: Shelf, id: FileId): Progress {
    if id in shelf.objects then Existing else New
  }

  /** A new artifact is created unless somebody else was faster; an existing one is
      verified against what would have been written. */
  function Committed(shelf: Shelf, id: FileId, content: Bytes, p: Progress): (Shelf, Progress) {
    if p == New then
      if id in shelf.objects then (shelf, LostRace)
      else (shelf.(objects := shelf.objects[id := content]), Placed)
    else if id in shelf.objects && shelf.objects[id] == content then (shelf, Placed)
    else (shelf, Differs)
  }

  function Recorded(shelf: Shelf, id: FileId, size: nat): (Shelf, Progress) {
    if id !in shelf.records then (shelf.(records := shelf.records[id := size]), Done)
    else if shelf.records[id] == size then (shelf, Done)
    else (shelf, Differs)
  }

  function Next(s: State, batch: string, files: Finalizer.Files, step: Step): State
    requires Enabled(s, files, step)
  {
    var id, content := FileId(batch, step.kind), WantOf(files, step.kind).value;
    var (shelf, p) :=
      match step
      case Open(_, _) => (s.shelf, Opened(s.shelf, id))
      case Commit(who, kind) => Committed(s.shelf, id, content, At(s, who, kind))
      case Record(_, _) => Recorded(s.shelf, id, |content|);
    State(shelf, s.progress[(step.who, step.kind) := p])
  }

  function Run(shelf: Shelf, batch: string, files: Finalizer.Files, steps: seq<Step>): State {
    if |steps| == 0 then State(shelf, map[])
    else
      var s := Run(shelf, batch, files, steps[..|steps| - 1]);
      if Enabled(s, files, steps[|steps| - 1]) then Next(s, batch, files, steps[|steps| - 1]) else s
  }

  predicate FitsKind(shelf: Shelf, batch: string, files: Finalizer.Files, kind: FileKind) {
    var id := FileId(batch, kind);
    WantOf(files, kind).Some? ==>
      && (id in shelf.objects ==> shelf.objects[id] == WantOf(files, kind).value)
      && (id in shelf.records ==> shelf.records[id] == |WantOf(files, kind).value|)
  }

  /** Nothing stored for the batch contradicts its artifacts. */
  predicate Compatible(shelf: Shelf, batch: string, files: Finalizer.Files) {
    FitsKind(shelf, batch, files, OutputFile) && FitsKind(shelf, batch, files, ErrorFile)
  }

  /** What a finalizer's progress says of the shelf. */
  predicate Truthful(shelf: Shelf, batch: string, kind: FileKind, p: Progress) {
    && p != Differs
    && (p == Existing || p == Placed || p == Done || p == LostRace ==> FileId(batch, kind) in shelf.objects)
    && (p == Done ==> FileId(batch, kind) in shelf.records)
  }

  ghost predicate Inv(s: State, batch: string, files: Finalizer.Files) {
    && Compatible(s.shelf, batch, files)
    && forall who, kind :: (who, kind) in s.progress ==> Truthful(s.shelf, batch, kind, s.progress[(who, kind)])
  }

  /** Objects and records are only ever added. */
  predicate Grows(a: Shelf, b: Shelf) {
    && (forall k :: k in a.objects ==> k in b.objects && b.objects[k] == a.objects[k])
    && (forall k :: k in a.records ==> k in b.records && b.records[k] == a.records[k])
  }

  lemma StepKeeps(s: State, batch: string, files: Finalizer.Files, step: Step)
    requires Inv(s, batch, files) && Enabled(s, files, step)
    ensures Inv(Next(s, batch, files, step), batch, files)
    ensures Grows(s.shelf, Next(s, batch, files, step).shelf)
  {
    var n := Next(s, batch, files, step);
    var before := At(s, step.who, step.kind);
    assert (step.who, step.kind) in s.progress ==> Truthful(s.shelf, batch, step.kind, before);
    forall who, kind | (who, kind) in n.progress ensures Truthful(n.shelf, batch, kind, n.progress[(who, kind)]) {
      if (who, kind) != (step.who, step.kind) {
        assert Truthful(s.shelf, batch, kind, s.progress[(who, kind)]);
      }
    }
  }

  lemma {:induction false} RunKeeps(shelf: Shelf, batch: string, files: Finalizer.Files, steps: seq<Step>)
    requires Compatible(shelf, batch, files)
    ensures Inv(Run(shelf, batch, files, steps), batch, files)
    ensures Grows(shelf, Run(shelf, batch, files, steps).shelf)
  {
    if |steps| > 0 {
      RunKeeps(shelf, batch, files, steps[..|steps| - 1]);
      var s := Run(shelf, batch, files, steps[..|steps| - 1]);
      if Enabled(s, files, steps[|steps| - 1]) {
        StepKeeps(s, batch, files, steps[|steps| - 1]);
      }
    }
  }

  /** Finalizers that derive the same artifacts never spoil each other's, in any
      interleaving with any of them crashing anywhere: what is stored stays right, nobody
      finds anything different, one that is done has its artifact and record in place,
      and one that loses a race loses it to the very same bytes. */
  lemma InterleavedFinalizers(shelf: Shelf, batch: string, files: Finalizer.Files, steps: seq<Step>, who: nat, kind: FileKind)
    requires Compatible(shelf, batch, files)
    ensures var s := Run(shelf, batch, files, steps);
            var p, id := At(s, who, kind), FileId(batch, kind);
            && Compatible(s.shelf, batch, files) && Grows(shelf, s.shelf)
            && p != Differs
            && (p == Done && WantOf(files, kind).Some? ==>
                  && id in s.shelf.objects && s.shelf.objects[id] == WantOf(files, kind).value
                  && id in s.shelf.records && s.shelf.records[id] == |WantOf(files, kind).value|)
            && (p == LostRace && WantOf(files, kind).Some? ==>
                  id in s.shelf.objects && s.shelf.objects[id] == WantOf(files, kind).value)
  {
    RunKeeps(shelf, batch, files, steps);
    var s := Run(shelf, batch, files, steps);
    if (who, kind) in s.progress {
      assert Truthful(s.shelf, batch, kind, s.progress[(who, kind)]);
    }
  }

  lemma OneMoreStep(shelf: Shelf, batch: string, files: Finalizer.Files, steps: seq<Step>, step: Step)
    ensures Run(shelf, batch, files, steps + [step]) ==
            var s := Run(shelf, batch, files, steps);
            if Enabled(s, files, step) then Next(s, batch, files, step) else s
  {
    assert (steps + [step])[..|steps|] == steps;
  }

  /** Nobody is ever in the way for good: after any interleaving, a finalizer that has not
      begun opens, commits and records an artifact that is wanted, and is done. */
  lemma NextFinalizerSucceeds(shelf: Shelf, batch: string, files: Finalizer.Files, steps: seq<Step>, who: nat, kind: FileKind)
    requires Compatible(shelf, batch, files) && WantOf(files, kind).Some?
    requires At(Run(shelf, batch, files, steps), who, kind) == Unopened
    ensures At(Run(shelf, batch, files, steps + [Open(who, kind)] + [Commit(who, kind)] + [Record(who, kind)]), who, kind) == Done
  {
    RunKeeps(shelf, batch, files, steps);
    OneMoreStep(shelf, batch, files, steps, Open(who, kind));
    OneMoreStep(shelf, batch, files, steps + [Open(who, kind)], Commit(who, kind));
    OneMoreStep(shelf, batch, files, steps + [Open(who, kind)] + [Commit(who, kind)], Record(who, kind));
  }

  predicate Wrote(s: State, who: nat, kind: FileKind) {
    At(s, who, kind) == Placed || At(s, who, kind) == Done
  }

  /** Who opened an artifact as new opened one that was not there at the start, and an
      object that was not there at the start was put there by a finalizer. */
  ghost predicate Attributed(shelf: Shelf, s: State, batch: string, kind: FileKind) {
    && (FileId(batch, kind) in shelf.objects ==> forall who :: At(s, who, kind) != New && At(s, who, kind) != LostRace)
    && (FileId(batch, kind) in s.shelf.objects && FileId(batch, kind) !in shelf.objects ==> exists who :: Wrote(s, who, kind))
  }

  lemma {:induction false} RunAttributes(shelf: Shelf, batch: string, files: Finalizer.Files, steps: seq<Step>, kind: FileKind)
    requires Compatible(shelf, batch, files)
    ensures Attributed(shelf, Run(shelf, batch, files, steps), batch, kind)
  {
    if |steps| > 0 {
      var s, step := Run(shelf, batch, files, steps[..|steps| - 1]), steps[|steps| - 1];
      RunAttributes(shelf, batch, files, steps[..|steps| - 1], kind);
      if Enabled(s, files, step) {
        RunKeeps(shelf, batch, files, steps[..|steps| - 1]);
        var n := Next(s, batch, files, step);
        forall who | FileId(batch, kind) in shelf.objects ensures At(n, who, kind) != New && At(n, who, kind) != LostRace {
          assert At(s, who, kind) != New && At(s, who, kind) != LostRace;
        }
        if exists who :: Wrote(s, who, kind) {
          var who :| Wrote(s, who, kind);
          assert Wrote(n, who, kind);
        } else if FileId(batch, kind) in n.shelf.objects && FileId(batch, kind) !in shelf.objects {
          assert Wrote(n, step.who, kind);
        }
      }
    }
  }

  /** A lost race has a winner: the object was not there at the start, and some other
      finalizer has it in place. */
  lemma LostRaceHasWinner(shelf: Shelf, batch: string, files: Finalizer.Files, steps: seq<Step>, who: nat, kind: FileKind)
    requires Compatible(shelf, batch, files) && WantOf(files, kind).Some?
    requires At(Run(shelf, batch, files, steps), who, kind) == LostRace
    ensures FileId(batch, kind) !in shelf.objects
    ensures exists winner :: winner != who && Wrote(Run(shelf, batch, files, steps), winner, kind)
  {
    RunAttributes(shelf, batch, files, steps, kind);
    InterleavedFinalizers(shelf, batch, files, steps, who, kind);
    var winner :| Wrote(Run(shelf, batch, files, steps), winner, kind);
  }

  /** After any such interleaving, one more incarnation, left alone, succeeds with the same
      artifacts, file ids and counts. */
  method FinishAfter(shelf: Shelf, batch: string, entries: seq<Entry>, results: map<ResultKey, Bytes>,
                     render: Renderer, code: string, steps: seq<Step>, store: Finalizer.ArtifactStore)
    returns (r: Finalizer.Assembly)
    requires Ascending(entries) && Integrity.EntriesIntact(entries, results) && (code != "" || AllTerminal(entries))
    requires Compatible(shelf, batch, Finalizer.FilesOf(entries, results, render, code))
    requires var s := Run(shelf, batch, Finalizer.FilesOf(entries, results, render, code), steps);
             store.objects == s.shelf.objects && store.records == s.shelf.records
    modifies store
    ensures Finalizer.Finished(store, batch, Finalizer.FilesOf(entries, results, render, code), CountsOf(entries), r)
  {
    ghost var files := Finalizer.FilesOf(entries, results, render, code);
    RunKeeps(shelf, batch, files, steps);
    r := Finalizer.FinalizeThroughCrashes(store, batch, entries, results, render, code, []);
  }
}
