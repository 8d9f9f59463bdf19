/** The finalizer: page by page assembly into create-only artifacts, and commits that
    verify what an earlier incarnation already committed. A crash is modelled by the
    number of store effects an attempt performs before its process dies. */
module Finalizer {
  import opened BatchTypes
  import opened System
  import opened Artifacts
  import Integrity

  const PAGE_SIZE: nat := 500

  // ---- reading the entry set ----

  /** The first entry past an ordinal. */
  function FirstAfter(entries: seq<Entry>, after: int): (n: nat)
    requires Ascending(entries)
    ensures n <= |entries|
    ensures forall i :: 0 <= i < n ==> entries[i].ordinal <= after
    ensures forall i :: n <= i < |entries| ==> entries[i].ordinal > after
  {
    if |entries| == 0 then 0
    else if entries[|entries| - 1].ordinal <= after then |entries|
    else FirstAfter(entries[..|entries| - 1], after)
  }

  lemma FirstAfterEntry(entries: seq<Entry>, k: nat)
    requires Ascending(entries) && k < |entries|
    ensures FirstAfter(entries, entries[k].ordinal) == k + 1
  {
    var n := FirstAfter(entries, entries[k].ordinal);
    assert n > k;
    if k + 1 < |entries| {
      assert entries[k].ordinal < entries[k + 1].ordinal;
    }
  }

  lemma FirstAfterStart(entries: seq<Entry>)
    requires Ascending(entries)
    ensures FirstAfter(entries, -1) == 0
  {
    assert FirstAfter(entries, -1) > 0 ==> entries[0].ordinal >= 0;
  }

  function PageEnd(entries: seq<Entry>, n: nat): nat
    requires n <= |entries|
  {
    if n + PAGE_SIZE <= |entries| then n + PAGE_SIZE else |entries|
  }

  method ListBatchEntries(entries: seq<Entry>, after: int) returns (page: seq<Entry>)
    requires Ascending(entries)
    ensures var n := FirstAfter(entries, after); page == entries[n..PageEnd(entries, n)]
  {
    var n := 0;
    while n < |entries| && entries[n].ordinal <= after
      invariant n <= FirstAfter(entries, after)
    {
      n := n + 1;
    }
    page := entries[n..PageEnd(entries, n)];
  }

  /** The whole entry set in ordinal order, page by page. */
  method ListResumableEntries(entries: seq<Entry>) returns (all: seq<Entry>)
    requires Ascending(entries)
    ensures all == entries
  {
    all := [];
    var after: int := -1;
    FirstAfterStart(entries);
    while true
      invariant |all| <= |entries| && all == entries[..|all|]
      invariant |all| == FirstAfter(entries, after)
      decreases |entries| - |all|
    {
      var page := ListBatchEntries(entries, after);
      if |page| == 0 {
        return;
      }
      all := all + page;
      after := page[|page| - 1].ordinal;
      FirstAfterEntry(entries, |all| - 1);
      if |page| < PAGE_SIZE {
        return;
      }
    }
  }

  /** A terminal entry's object, checked against its recorded size and digest. */
  method FetchResult(results: map<ResultKey, Bytes>, e: Entry) returns (line: Option<Bytes>)
    ensures line.Some? <==> e.result.Some? && Intact(results, e.result.value)
    ensures line.Some? ==> line.value == results[e.result.value.key]
  {
    if e.result.None? || e.result.value.key !in results {
      return None;
    }
    var data := results[e.result.value.key];
    if |data| != e.result.value.size || Sha256(data) != e.result.value.digest {
      return None;
    }
    return Some(data);
  }

  // ---- artifacts ----

  /** Create-only artifact objects and their file records (the recorded size). */
  class ArtifactStore {
    var objects: map<FileId, Bytes>
    var records: map<FileId, nat>

    constructor ()
      ensures objects == map[] && records == map[]
    {
      objects, records := map[], map[];
    }

    /** What is stored under an id, if anything, is this content. */
    predicate Fits(id: FileId, content: Bytes)
      reads this
    {
      (id in objects ==> objects[id] == content) && (id in records ==> records[id] == |content|)
    }

    predicate FitsWant(id: FileId, want: Option<Bytes>)
      reads this
    {
      want.Some? ==> Fits(id, want.value)
    }

    predicate Holds(id: FileId, want: Option<Bytes>)
      reads this
    {
      want.Some? ==> id in objects && id in records && objects[id] == want.value && records[id] == |want.value|
    }

    /** Stores the record, or accepts an existing one for the same file. */
    method EnsureFileRecord(id: FileId, size: nat) returns (ok: bool)
      modifies `records
      ensures ok <==> (id in old(records) ==> old(records)[id] == size)
      ensures records == if id in old(records) then old(records) else old(records)[id := size]
    {
      if id !in records {
        records := records[id := size];
        return true;
      }
      return records[id] == size;
    }
  }

  datatype CommitResult = Committed(file: Option<FileId>) | Mismatch | Crashed

  class ArtifactWriter {
    const store: ArtifactStore
    const id: FileId
    var buffer: Option<Bytes>
    var existing: bool
    var hashed: Bytes
    var count: nat

    /** Existing mode is entered exactly when the artifact was there at first use. */
    ghost predicate Valid()
      reads this, store
    {
      && count == |hashed|
      && (existing ==> buffer.None? && id in store.objects)
      && (buffer.Some? ==> id !in store.objects)
    }

    /** What this incarnation has written, or would have. */
    function Written(): Option<Bytes>
      reads this
    {
      if existing then Some(hashed) else buffer
    }

    constructor (store: ArtifactStore, id: FileId)
      ensures Valid() && Written() == None && this.store == store && this.id == id
    {
      this.store, this.id := store, id;
      buffer, existing, hashed, count := None, false, [], 0;
    }

    method Ensure()
      requires Valid()
      modifies this
      ensures Valid() && Written() == Some(if old(Written()).Some? then old(Written()).value else [])
    {
      if buffer.Some? || existing {
        return;
      }
      if id in store.objects {
        existing := true;
        hashed, count := [], 0;
      } else {
        buffer := Some([]);
      }
    }

    method WriteLine(line: Bytes)
      requires Valid()
      modifies this
      ensures Valid() && Written() == Appended(old(Written()), line)
    {
      Ensure();
      if existing {
        hashed := hashed + line;
        count := count + |line|;
      } else {
        buffer := Some(buffer.value + line);
      }
    }

    method VerifyExisting() returns (ok: bool)
      requires Valid()
      ensures ok <==> id in store.objects && store.objects[id] == hashed
    {
      if id !in store.objects {
        return false;
      }
      var stored := store.objects[id];
      return |stored| == count && Sha256(stored) == Sha256(hashed);
    }

    /** Commits the artifact and its record, or verifies an earlier commit. */
    method Commit(crash: nat) returns (r: CommitResult, left: nat)
      requires Valid()
      modifies this, store
      ensures left <= crash <= left + 2
      ensures old(Written()).None? ==>
                r == Committed(None) && left == crash &&
                store.objects == old(store.objects) && store.records == old(store.records)
      ensures forall k :: k != id ==>
                && (k in store.objects <==> k in old(store.objects)) && (k in store.records <==> k in old(store.records))
                && (k in store.objects ==> store.objects[k] == old(store.objects)[k])
                && (k in store.records ==> store.records[k] == old(store.records)[k])
      ensures id in old(store.objects) ==> id in store.objects && store.objects[id] == old(store.objects)[id]
      ensures r.Committed? && old(Written()).Some? ==> r.file == Some(id) && store.Holds(id, old(Written()))
      ensures old(store.FitsWant(id, Written())) ==> store.FitsWant(id, old(Written()))
      ensures r.Committed? ==> old(store.FitsWant(id, Written()))
      ensures r.Mismatch? ==> !old(store.FitsWant(id, Written()))
      ensures crash >= 2 ==> !r.Crashed?
    {
      left := crash;
      var written := Written();
      if written.None? {
        return Committed(None), left;
      }
      if existing {
        var same := VerifyExisting();
        if !same {
          return Mismatch, left;
        }
      } else {
        if left == 0 {
          return Crashed, left;
        }
        store.objects := store.objects[id := written.value];
        buffer := None;
        left := left - 1;
      }
      if left == 0 {
        return Crashed, left;
      }
      var ok := store.EnsureFileRecord(id, |written.value|);
      left := left - 1;
      r := if ok then Committed(Some(id)) else Mismatch;
    }
  }

  // ---- assembly ----

  datatype Assembly =
    | Assembled(counts: Counts, outputFile: Option<FileId>, errorFile: Option<FileId>)
    | StillOpen
    | Corrupt
    | Mismatched
    | Died

  function Appended(written: Option<Bytes>, line: Bytes): Option<Bytes> {
    Some((if written.Some? then written.value else []) + line)
  }

  lemma LinesExtend(entries: seq<Entry>, results: map<ResultKey, Bytes>, render: Renderer, code: string,
                    kind: FileKind, i: nat)
    requires i < |entries|
    ensures var front := Lines(entries[..i], results, render, code, kind);
            Lines(entries[..i + 1], results, render, code, kind) ==
            if Route(entries[i]) == kind then front + [LineOf(entries[i], results, render, code)] else front
  {
    assert entries[..i + 1][..i] == entries[..i];
  }

  lemma PackExtends(lines: seq<Bytes>, line: Bytes)
    ensures Pack(lines + [line]) == Appended(Pack(lines), line)
  {
    assert (lines + [line])[..|lines|] == lines;
  }

  lemma WantExtends(entries: seq<Entry>, results: map<ResultKey, Bytes>, render: Renderer, code: string,
                    kind: FileKind, i: nat)
    requires i < |entries|
    ensures var before := Want(entries[..i], results, render, code, kind);
            Want(entries[..i + 1], results, render, code, kind) ==
            if Route(entries[i]) == kind
            then Appended(before, LineOf(entries[i], results, render, code))
            else before
  {
    LinesExtend(entries, results, render, code, kind, i);
    PackExtends(Lines(entries[..i], results, render, code, kind), LineOf(entries[i], results, render, code));
  }

  lemma CountsExtend(entries: seq<Entry>, i: nat)
    requires i < |entries|
    ensures var c := CountsOf(entries[..i]);
            CountsOf(entries[..i + 1]) ==
            Tallied(c, entries[i])
  {
    assert entries[..i + 1][..i] == entries[..i];
  }

  ghost predicate Fetched(page: seq<Entry>, results: map<ResultKey, Bytes>, lines: seq<Bytes>) {
    && |lines| == |page|
    && forall i :: 0 <= i < |page| && page[i].Terminal() ==> lines[i] == LineOf(page[i], results, (r, c, d) => [], "")
  }

  /** The page's terminal results, each verified; nothing if one fails. */
  method FetchPage(page: seq<Entry>, results: map<ResultKey, Bytes>) returns (fetched: Option<seq<Bytes>>)
    ensures fetched.Some? <==> Integrity.EntriesIntact(page, results)
    ensures fetched.Some? ==> Fetched(page, results, fetched.value)
  {
    var lines: seq<Bytes> := [];
    for i := 0 to |page|
      invariant |lines| == i && Integrity.EntriesIntact(page[..i], results)
      invariant Fetched(page[..i], results, lines)
    {
      if !page[i].Terminal() {
        lines := lines + [[]];
      } else {
        var line := FetchResult(results, page[i]);
        if line.None? {
          return None;
        }
        lines := lines + [line.value];
      }
    }
    assert page[..|page|] == page;
    return Some(lines);
  }

  /** What the writers and counters hold after the first n entries. */
  ghost predicate Contributed(out: Option<Bytes>, err: Option<Bytes>, counts: Counts, entries: seq<Entry>, n: nat,
                              results: map<ResultKey, Bytes>, render: Renderer, code: string)
  {
    && n <= |entries|
    && out == Want(entries[..n], results, render, code, OutputFile)
    && err == Want(entries[..n], results, render, code, ErrorFile)
    && counts == CountsOf(entries[..n])
    && (code == "" ==> AllTerminal(entries[..n]))
  }

  function Tallied(c: Counts, e: Entry): Counts {
    if e.status == EntryCompleted then Counts(c.total + 1, c.completed + 1, c.failed)
    else Counts(c.total + 1, c.completed, c.failed + 1)
  }

  lemma Contributes(out: Option<Bytes>, err: Option<Bytes>, counts: Counts, entries: seq<Entry>, n: nat,
                    results: map<ResultKey, Bytes>, render: Renderer, code: string)
    requires n < |entries| && Contributed(out, err, counts, entries, n, results, render, code)
    requires code != "" || entries[n].Terminal()
    ensures var line := LineOf(entries[n], results, render, code);
            if Route(entries[n]) == OutputFile
            then Contributed(Appended(out, line), err, Tallied(counts, entries[n]), entries, n + 1, results, render, code)
            else Contributed(out, Appended(err, line), Tallied(counts, entries[n]), entries, n + 1, results, render, code)
  {
    WantExtends(entries, results, render, code, OutputFile, n);
    WantExtends(entries, results, render, code, ErrorFile, n);
    CountsExtend(entries, n);
    assert entries[..n + 1] == entries[..n] + [entries[n]];
  }

  lemma IntactPages(entries: seq<Entry>, results: map<ResultKey, Bytes>, n: nat, m: nat)
    requires n <= m <= |entries|
    ensures Integrity.EntriesIntact(entries[..m], results) <==>
            Integrity.EntriesIntact(entries[..n], results) && Integrity.EntriesIntact(entries[n..m], results)
    ensures Integrity.EntriesIntact(entries, results) ==> Integrity.EntriesIntact(entries[n..m], results)
  {
    assert entries[..m] == entries[..n] + entries[n..m];
  }

  /** Paging by the last ordinal seen neither skips nor repeats an entry. */
  lemma PageStep(entries: seq<Entry>, after: int, page: seq<Entry>)
    requires Ascending(entries)
    requires var n := FirstAfter(entries, after); page == entries[n..PageEnd(entries, n)]
    ensures var n := FirstAfter(entries, after);
            && n + |page| <= |entries| && page == entries[n..n + |page|]
            && (|page| < PAGE_SIZE ==> n + |page| == |entries|)
            && (|page| > 0 ==> FirstAfter(entries, page[|page| - 1].ordinal) == n + |page|)
  {
    if |page| > 0 {
      FirstAfterEntry(entries, FirstAfter(entries, after) + |page| - 1);
    }
  }

  /** The assembly of one batch: two writers over one artifact store. */
  class Assembler {
    const store: ArtifactStore
    const output: ArtifactWriter
    const errorW: ArtifactWriter
    var counts: Counts

    ghost predicate Valid()
      reads this, store, output, errorW
    {
      && output != errorW
      && output.store == store && errorW.store == store
      && output.Valid() && errorW.Valid()
    }

    ghost predicate Holding(entries: seq<Entry>, n: nat, results: map<ResultKey, Bytes>, render: Renderer, code: string)
      reads this, output, errorW
    {
      Contributed(output.Written(), errorW.Written(), counts, entries, n, results, render, code)
    }

    constructor (store: ArtifactStore, batch: string)
      ensures Valid() && this.store == store && fresh(output) && fresh(errorW)
      ensures output.id == FileId(batch, OutputFile) && errorW.id == FileId(batch, ErrorFile)
      ensures output.Written() == None && errorW.Written() == None && counts == Counts(0, 0, 0)
    {
      this.store := store;
      output := new ArtifactWriter(store, FileId(batch, OutputFile));
      errorW := new ArtifactWriter(store, FileId(batch, ErrorFile));
      counts := Counts(0, 0, 0);
    }

    /** Writes a line where its entry belongs, and counts the entry. */
    method WriteRouted(e: Entry, line: Bytes)
      requires Valid()
      modifies this, output, errorW
      ensures Valid() && counts == Tallied(old(counts), e)
      ensures output.Written() == if Route(e) == OutputFile then Appended(old(output.Written()), line) else old(output.Written())
      ensures errorW.Written() == if Route(e) == ErrorFile then Appended(old(errorW.Written()), line) else old(errorW.Written())
    {
      if e.status == EntryCompleted {
        counts := counts.(total := counts.total + 1, completed := counts.completed + 1);
        output.WriteLine(line);
      } else {
        counts := counts.(total := counts.total + 1, failed := counts.failed + 1);
        if e.status == EntryFailed && e.errorCode == "" {
          output.WriteLine(line);
        } else {
          errorW.WriteLine(line);
        }
      }
    }

    /** Writes one entry's line where it belongs; refuses an open entry when the batch
        must be complete. */
    method WriteEntry(ghost entries: seq<Entry>, ghost n: nat, e: Entry, line: Bytes,
                      ghost results: map<ResultKey, Bytes>, render: Renderer, code: string)
      returns (ok: bool)
      requires Valid() && n < |entries| && e == entries[n] && Holding(entries, n, results, render, code)
      requires e.Terminal() ==> line == LineOf(e, results, render, code)
      modifies this, output, errorW
      ensures Valid()
      ensures ok <==> code != "" || e.Terminal()
      ensures ok ==> Holding(entries, n + 1, results, render, code)
    {
      if code == "" && !e.Terminal() {
        return false;
      }
      Contributes(output.Written(), errorW.Written(), counts, entries, n, results, render, code);
      WriteRouted(e, if e.Terminal() then line else render(e.requestId, e.customId, code));
      return true;
    }

    /** One page, in ordinal order. */
    method WritePage(ghost entries: seq<Entry>, ghost n: nat, page: seq<Entry>, lines: seq<Bytes>,
                     ghost results: map<ResultKey, Bytes>, render: Renderer, code: string)
      returns (ok: bool)
      requires Valid() && Holding(entries, n, results, render, code)
      requires n + |page| <= |entries| && page == entries[n..n + |page|] && Fetched(page, results, lines)
      modifies this, output, errorW
      ensures Valid()
      ensures ok ==> Holding(entries, n + |page|, results, render, code)
      ensures !ok ==> code == "" && !AllTerminal(entries)
    {
      for i := 0 to |page|
        invariant Valid() && Holding(entries, n + i, results, render, code)
      {
        assert page[i] == entries[n + i];
        var written := WriteEntry(entries, n + i, page[i], lines[i], results, render, code);
        if !written {
          return false;
        }
      }
      return true;
    }

    /** Everything up to entry n has been verified and written. */
    ghost predicate Streamed(entries: seq<Entry>, n: nat, results: map<ResultKey, Bytes>, render: Renderer, code: string)
      reads this, output, errorW
    {
      Holding(entries, n, results, render, code) && Integrity.EntriesIntact(entries[..n], results)
    }

    /** Fetches, verifies and writes one page. */
    method StreamPage(ghost entries: seq<Entry>, ghost n: nat, page: seq<Entry>, results: map<ResultKey, Bytes>,
                      render: Renderer, code: string)
      returns (r: Assembly)
      requires Valid() && Streamed(entries, n, results, render, code)
      requires n + |page| <= |entries| && page == entries[n..n + |page|]
      modifies this, output, errorW
      ensures Valid() && (r.Assembled? || r.StillOpen? || r.Corrupt?)
      ensures r.Assembled? ==> Streamed(entries, n + |page|, results, render, code)
      ensures r.StillOpen? ==> code == "" && !AllTerminal(entries)
      ensures r.Corrupt? ==> !Integrity.EntriesIntact(entries, results)
    {
      IntactPages(entries, results, n, n + |page|);
      var fetched := FetchPage(page, results);
      if fetched.None? {
        return Corrupt;
      }
      var ok := WritePage(entries, n, page, fetched.value, results, render, code);
      return if ok then Assembled(counts, None, None) else StillOpen;
    }

    /** The page after an ordinal, and whether there may be another. */
    method StreamNext(entries: seq<Entry>, after: int, results: map<ResultKey, Bytes>, render: Renderer, code: string)
      returns (r: Assembly, last: int, more: bool)
      requires Valid() && Ascending(entries) && Streamed(entries, FirstAfter(entries, after), results, render, code)
      modifies this, output, errorW
      ensures Valid() && (r.Assembled? || r.StillOpen? || r.Corrupt?)
      ensures r.Assembled? ==> Streamed(entries, FirstAfter(entries, last), results, render, code)
      ensures r.Assembled? && more ==> FirstAfter(entries, last) > FirstAfter(entries, after)
      ensures r.Assembled? && !more ==> FirstAfter(entries, last) == |entries|
      ensures r.StillOpen? ==> code == "" && !AllTerminal(entries)
      ensures r.Corrupt? ==> !Integrity.EntriesIntact(entries, results)
    {
      var page := ListBatchEntries(entries, after);
      PageStep(entries, after, page);
      last, more := after, |page| == PAGE_SIZE;
      r := Assembled(counts, None, None);
      if |page| > 0 {
        r := StreamPage(entries, FirstAfter(entries, after), page, results, render, code);
        last := page[|page| - 1].ordinal;
      }
    }

    /** The paging loop: every entry once, in ordinal order. */
    method Stream(entries: seq<Entry>, results: map<ResultKey, Bytes>, render: Renderer, code: string)
      returns (r: Assembly)
      requires Valid() && Ascending(entries) && Streamed(entries, 0, results, render, code)
      modifies this, output, errorW
      ensures Valid() && (r.Assembled? || r.StillOpen? || r.Corrupt?)
      ensures r.Assembled? ==> Streamed(entries, |entries|, results, render, code)
      ensures r.StillOpen? ==> code == "" && !AllTerminal(entries)
      ensures r.Corrupt? ==> !Integrity.EntriesIntact(entries, results)
    {
      var after: int := -1;
      FirstAfterStart(entries);
      var more := true;
      while more
        invariant Valid() && Streamed(entries, FirstAfter(entries, after), results, render, code)
        invariant !more ==> FirstAfter(entries, after) == |entries|
        decreases more, |entries| - FirstAfter(entries, after)
      {
        r, after, more := StreamNext(entries, after, results, render, code);
        if !r.Assembled? {
          return;
        }
      }
      return Assembled(counts, None, None);
    }
  }

  // ---- one attempt, and any number of crashed ones before it ----

  function FileOf(id: FileId, want: Option<Bytes>): Option<FileId> {
    if want.Some? then Some(id) else None
  }

  /** The two artifacts of a batch. */
  datatype Files = Files(out: Option<Bytes>, err: Option<Bytes>)

  function FilesOf(entries: seq<Entry>, results: map<ResultKey, Bytes>, render: Renderer, code: string): Files {
    Files(Want(entries, results, render, code, OutputFile), Want(entries, results, render, code, ErrorFile))
  }

  /** Nothing stored for the batch contradicts its artifacts. */
  ghost predicate Compatible(store: ArtifactStore, batch: string, files: Files)
    reads store
  {
    store.FitsWant(FileId(batch, OutputFile), files.out) && store.FitsWant(FileId(batch, ErrorFile), files.err)
  }

  /** Both artifacts, their records and the file ids of a finished assembly. */
  ghost predicate Finished(store: ArtifactStore, batch: string, files: Files, counts: Counts, r: Assembly)
    reads store
  {
    && store.Holds(FileId(batch, OutputFile), files.out) && store.Holds(FileId(batch, ErrorFile), files.err)
    && r == Assembled(counts, FileOf(FileId(batch, OutputFile), files.out), FileOf(FileId(batch, ErrorFile), files.err))
  }

  /** The file and its record hold exactly the entries that belong in it; there is none if
      no entry does. */
  ghost predicate HoldsExactly(store: ArtifactStore, id: FileId, file: Option<FileId>, entries: seq<Entry>,
                               results: map<ResultKey, Bytes>, render: Renderer, code: string, belongs: Entry -> bool)
    reads store
  {
    exists lines, chosen ::
      && Exactly(lines, chosen, entries, results, render, code, belongs)
      && (chosen == [] ==> file == None)
      && (chosen != [] ==>
            && file == Some(id) && id in store.objects && store.objects[id] == Flatten(lines)
            && id in store.records && store.records[id] == |Flatten(lines)|)
  }

  lemma FinishedExactly(store: ArtifactStore, batch: string, entries: seq<Entry>, results: map<ResultKey, Bytes>,
                        render: Renderer, code: string, counts: Counts, r: Assembly)
    requires Integrity.EntriesIntact(entries, results)
    requires Finished(store, batch, FilesOf(entries, results, render, code), counts, r)
    ensures HoldsExactly(store, FileId(batch, OutputFile), r.outputFile, entries, results, render, code, InOutput)
    ensures HoldsExactly(store, FileId(batch, ErrorFile), r.errorFile, entries, results, render, code, InError)
  {
    var out := LinesExactly(entries, results, render, code, OutputFile);
    var err := LinesExactly(entries, results, render, code, ErrorFile);
    assert Exactly(Lines(entries, results, render, code, OutputFile), out, entries, results, render, code, InOutput);
    assert Exactly(Lines(entries, results, render, code, ErrorFile), err, entries, results, render, code, InError);
  }

  method CommitBoth(store: ArtifactStore, batch: string, output: ArtifactWriter, errorW: ArtifactWriter,
                    counts: Counts, crash: nat)
    returns (r: Assembly)
    requires output != errorW && output.store == store && errorW.store == store
    requires output.id == FileId(batch, OutputFile) && errorW.id == FileId(batch, ErrorFile)
    requires output.Valid() && errorW.Valid()
    modifies store, output, errorW
    ensures r.Assembled? || r.Mismatched? || r.Died?
    ensures var files := old(Files(output.Written(), errorW.Written()));
            && (r.Assembled? ==> Finished(store, batch, files, counts, r))
            && (r.Assembled? ==> old(Compatible(store, batch, files)))
            && (r.Mismatched? ==> !old(Compatible(store, batch, files)))
            && (old(Compatible(store, batch, files)) ==> Compatible(store, batch, files))
    ensures crash >= 4 ==> !r.Died?
    ensures forall k :: k in old(store.objects) ==> k in store.objects && store.objects[k] == old(store.objects)[k]
  {
    var first, left := output.Commit(crash);
    if !first.Committed? {
      return if first.Crashed? then Died else Mismatched;
    }
    var second, _ := errorW.Commit(left);
    if !second.Committed? {
      return if second.Crashed? then Died else Mismatched;
    }
    return Assembled(counts, first.file, second.file);
  }

  /** One attempt. It succeeds, given intact results and enough life, exactly when
      what is already stored agrees with the artifacts of the entry set; a crash at
      any point keeps that agreement, and no stored artifact is ever replaced. */
  method AssembleResumableArtifacts(store: ArtifactStore, batch: string, entries: seq<Entry>,
                                    results: map<ResultKey, Bytes>, render: Renderer, code: string, crash: nat)
    returns (r: Assembly)
    requires Ascending(entries)
    modifies store
    ensures var files := FilesOf(entries, results, render, code);
            && (r.Assembled? ==> Finished(store, batch, files, CountsOf(entries), r))
            && (r.Assembled? ==> old(Compatible(store, batch, files)))
            && (r.Mismatched? ==> !old(Compatible(store, batch, files)))
            && (old(Compatible(store, batch, files)) ==> Compatible(store, batch, files))
    ensures r.Assembled? ==>
              && HoldsExactly(store, FileId(batch, OutputFile), r.outputFile, entries, results, render, code, InOutput)
              && HoldsExactly(store, FileId(batch, ErrorFile), r.errorFile, entries, results, render, code, InError)
    ensures r.Assembled? ==>
              && r.counts.total == |entries| && r.counts.completed == Tally(entries, EntryCompleted)
              && r.counts.failed == |entries| - r.counts.completed
    ensures r.Assembled? ==> Integrity.EntriesIntact(entries, results) && (code == "" ==> AllTerminal(entries))
    ensures r.StillOpen? ==> code == "" && !AllTerminal(entries)
    ensures r.Corrupt? ==> !Integrity.EntriesIntact(entries, results)
    ensures r.StillOpen? || r.Corrupt? ==> store.objects == old(store.objects) && store.records == old(store.records)
    ensures crash >= 4 ==> !r.Died?
    ensures forall k :: k in old(store.objects) ==> k in store.objects && store.objects[k] == old(store.objects)[k]
  {
    var assembler := new Assembler(store, batch);
    r := assembler.Stream(entries, results, render, code);
    if !r.Assembled? {
      return;
    }
    assert entries[..|entries|] == entries;
    r := CommitBoth(store, batch, assembler.output, assembler.errorW, assembler.counts, crash);
    if r.Assembled? {
      FinishedExactly(store, batch, entries, results, render, code, assembler.counts, r);
      CountsMean(entries);
    }
  }

  /** One earlier incarnation: the code it rendered unexecuted entries with, and how
      many store effects it lived for. */
  datatype Attempt = Attempt(code: string, crash: nat)

  lemma FilesSame(entries: seq<Entry>, results: map<ResultKey, Bytes>, render: Renderer, c: string, d: string)
    requires c == d || AllTerminal(entries)
    ensures FilesOf(entries, results, render, c) == FilesOf(entries, results, render, d)
  {
    SameCodeBlind(entries, results, render, c, d, OutputFile);
    SameCodeBlind(entries, results, render, c, d, ErrorFile);
  }

  /** Crash-idempotent finalization: after any number of incarnations that crashed
      anywhere between their commits, records and the terminal write, the next one
      verifies instead of failing and ends with the same bytes, file ids and counts. */
  method FinalizeThroughCrashes(store: ArtifactStore, batch: string, entries: seq<Entry>,
                                results: map<ResultKey, Bytes>, render: Renderer, code: string,
                                earlier: seq<Attempt>)
    returns (r: Assembly)
    requires Ascending(entries) && Integrity.EntriesIntact(entries, results)
    requires AllTerminal(entries) || (code != "" && forall a :: a in earlier ==> a.code == code)
    requires Compatible(store, batch, FilesOf(entries, results, render, code))
    modifies store
    ensures r.Assembled?
    ensures Finished(store, batch, FilesOf(entries, results, render, code), CountsOf(entries), r)
  {
    for i := 0 to |earlier|
      invariant Compatible(store, batch, FilesOf(entries, results, render, code))
    {
      assert earlier[i] in earlier;
      FilesSame(entries, results, render, earlier[i].code, code);
      r := AssembleResumableArtifacts(store, batch, entries, results, render, earlier[i].code, earlier[i].crash);
    }
    r := AssembleResumableArtifacts(store, batch, entries, results, render, code, 4);
  }

  /** The first attempt's code is not free once it committed unexecuted lines: a second
      attempt with another code is refused if and only if an entry was left open. */
  method RefinalizeWithOtherCode(store: ArtifactStore, batch: string, entries: seq<Entry>,
                                 results: map<ResultKey, Bytes>, render: Renderer, first: string, second: string)
    returns (r: Assembly)
    requires Ascending(entries) && Integrity.EntriesIntact(entries, results)
    requires WellRendered(entries, results, render) && first != "" && second != "" && first != second
    requires store.objects == map[] && store.records == map[]
    modifies store
    ensures r.Assembled? <==> AllTerminal(entries)
    ensures r.Mismatched? <==> !AllTerminal(entries)
  {
    r := AssembleResumableArtifacts(store, batch, entries, results, render, first, 4);
    NotExecutedDiverges(entries, results, render, first, second);
    if AllTerminal(entries) {
      FilesSame(entries, results, render, first, second);
    } else {
      OpenMeansError(entries, results, render, first);
      OpenMeansError(entries, results, render, second);
    }
    r := AssembleResumableArtifacts(store, batch, entries, results, render, second, 4);
  }

  lemma OpenMeansError(entries: seq<Entry>, results: map<ResultKey, Bytes>, render: Renderer, code: string)
    requires !AllTerminal(entries)
    ensures Want(entries, results, render, code, ErrorFile).Some?
  {
    var i: nat :| i < |entries| && !entries[i].Terminal();
    LineAtRank(entries, results, render, code, i);
  }
}
