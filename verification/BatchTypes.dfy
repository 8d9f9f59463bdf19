/** The rows of one batch: the batch_items row, its batch_entries rows, and the
    manifest they are seeded from. SHA-256 digests and name-based UUIDs are free
    constructors, that is, injective functions with no other assumed structure. */
module BatchTypes {

  datatype Option<+T> = None | Some(value: T)

  type ProcessorId = string

  newtype byte = x: int | 0 <= x < 256

  type Bytes = seq<byte>

  datatype Digest = Sha256(content: Bytes)

  datatype FileKind = OutputFile | ErrorFile

  /** The stable artifact id of a batch (name-based UUID over batch and kind). */
  datatype FileId = FileId(batch: string, kind: FileKind)

  /** The stable request id of one input line (name-based UUID over batch and custom id). */
  datatype RequestId = RequestId(batch: string, customId: string)

  /** results/<batch>/<request>.jsonl, or the same with a unique infix. */
  datatype ResultKey = Canonical(request: RequestId) | Fallback(request: RequestId, uuid: nat)

  datatype BatchStatus =
    | Validating
    | Failed
    | InProgress
    | Finalizing
    | Completed
    | Expired
    | Cancelling
    | Cancelled

  predicate IsTerminal(s: BatchStatus) {
    s == Completed || s == Failed || s == Expired || s == Cancelled
  }

  datatype Counts = Counts(total: nat, completed: nat, failed: nat)

  /** The status JSON document. `since` stands for its timestamps. */
  datatype StatusDoc = StatusDoc(
    status: BatchStatus,
    since: nat,
    counts: Counts,
    outputFile: Option<FileId>,
    errorFile: Option<FileId>)

  /** The document names an artifact of the batch. */
  predicate NamesFile(doc: StatusDoc) {
    doc.outputFile.Some? || doc.errorFile.Some?
  }

  /** The document of a batch that was just submitted. */
  predicate Submitted(doc: StatusDoc) {
    doc.status == Validating && !NamesFile(doc)
  }

  datatype Row = Row(
    doc: StatusDoc,
    processor: Option<ProcessorId>,
    epoch: nat,
    attempts: nat,
    resumable: bool,
    lease: Option<nat>)
  {
    predicate Terminal() {
      IsTerminal(doc.status)
    }
  }

  datatype EntryStatus = Pending | InFlight | EntryCompleted | EntryFailed

  /** Where a checkpointed result object lives and what it must hash to. */
  datatype ResultMeta = ResultMeta(key: ResultKey, size: nat, digest: Digest)

  datatype Entry = Entry(
    requestId: RequestId,
    ordinal: nat,
    customId: string,
    status: EntryStatus,
    attempts: nat,
    submittedBy: Option<ProcessorId>,
    result: Option<ResultMeta>,
    errorCode: string)
  {
    predicate Terminal() {
      status == EntryCompleted || status == EntryFailed
    }
  }

  /** The database as one batch sees it; `now` is the database clock. */
  datatype Db = Db(row: Row, entries: seq<Entry>, now: nat)

  /** One preprocessed input line; errLine is the error object of a rejected line. */
  datatype ManifestEntry = ManifestEntry(
    ordinal: nat,
    customId: string,
    requestId: RequestId,
    rejected: bool,
    errorCode: string,
    errLine: Bytes)

  function MetaOf(key: ResultKey, line: Bytes): ResultMeta {
    ResultMeta(key, |line|, Sha256(line))
  }

  function ActivationEntry(m: ManifestEntry): Entry {
    if m.rejected then
      Entry(m.requestId, m.ordinal, m.customId, EntryFailed, 0, None,
            Some(MetaOf(Canonical(m.requestId), m.errLine)), m.errorCode)
    else
      Entry(m.requestId, m.ordinal, m.customId, Pending, 0, None, None, "")
  }

  function ActivationEntries(manifest: seq<ManifestEntry>): seq<Entry> {
    seq(|manifest|, i requires 0 <= i < |manifest| => ActivationEntry(manifest[i]))
  }

  ghost predicate DistinctRequests(entries: seq<Entry>) {
    forall i, j :: 0 <= i < j < |entries| ==> entries[i].requestId != entries[j].requestId
  }

  /** The primary-key lookup (batch_id, request_id). */
  function IndexOf(entries: seq<Entry>, rid: RequestId): (r: Option<nat>)
    ensures r.Some? ==> r.value < |entries| && entries[r.value].requestId == rid
    ensures r.None? ==> forall i :: 0 <= i < |entries| ==> entries[i].requestId != rid
  {
    if |entries| == 0 then None
    else if entries[|entries| - 1].requestId == rid then Some(|entries| - 1)
    else IndexOf(entries[..|entries| - 1], rid)
  }

  /** How many entries have a status. */
  function Tally(entries: seq<Entry>, status: EntryStatus): nat {
    if |entries| == 0 then 0
    else Tally(entries[..|entries| - 1], status) + if entries[|entries| - 1].status == status then 1 else 0
  }

  /** Every field that identifies an entry, as opposed to tracking its progress. */
  ghost predicate SameIdentity(a: Entry, b: Entry) {
    a.requestId == b.requestId && a.ordinal == b.ordinal && a.customId == b.customId
  }
}
