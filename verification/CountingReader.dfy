/** The upload reader that counts bytes and lines while enforcing limits. */
module CountingReader {
  import opened BatchTypes
  import opened Artifacts

  datatype ReadError = NoError | Eof | TooLarge | TooManyLines

  /** What the inner reader returns on one call: some bytes, and possibly the end. */
  datatype Chunk = Chunk(data: Bytes, eof: bool)

  // ---- whole content ----

  function Newlines(content: Bytes): nat {
    if |content| == 0 then 0
    else Newlines(content[..|content| - 1]) + if content[|content| - 1] == NEWLINE then 1 else 0
  }

  predicate Trailing(content: Bytes) {
    |content| > 0 && content[|content| - 1] != NEWLINE
  }

  /** The lines of a content: its newlines, and a last line without one. */
  function LineTotal(content: Bytes): nat {
    Newlines(content) + if Trailing(content) then 1 else 0
  }

  /** A limit of zero or less is no limit. */
  predicate Within(n: nat, limit: int) {
    limit > 0 ==> n <= limit
  }

  lemma {:induction false} NewlinesJoin(a: Bytes, b: Bytes)
    ensures Newlines(a + b) == Newlines(a) + Newlines(b)
  {
    if |b| == 0 {
      assert a + b == a;
    } else {
      NewlinesJoin(a, b[..|b| - 1]);
      assert (a + b)[..|a + b| - 1] == a + b[..|b| - 1];
    }
  }

  /** What one read of a chunk after some content comes to: the size is checked before
      the lines, and a last line without a newline counts at the end. */
  function ReadFate(content: Bytes, chunk: Chunk, sizeLimit: int, lineLimit: int): ReadError {
    var all := content + chunk.data;
    if !Within(|all|, sizeLimit) then TooLarge
    else if !Within(if chunk.eof then LineTotal(all) else Newlines(all), lineLimit) then TooManyLines
    else if chunk.eof then Eof
    else NoError
  }

  class LimitedCountingReader {
    const sizeLimit: int
    const lineLimit: int
    var bytesRead: nat
    var lineCount: nat
    var hasTrailingContent: bool

    /** The fields after the content read so far, none of it refused and no end seen. */
    ghost predicate Counts(content: Bytes)
      reads this
    {
      && bytesRead == |content| && lineCount == Newlines(content) && hasTrailingContent == Trailing(content)
      && Within(|content|, sizeLimit) && Within(Newlines(content), lineLimit)
    }

    constructor (sizeLimit: int, lineLimit: int)
      ensures Counts([]) && this.sizeLimit == sizeLimit && this.lineLimit == lineLimit
    {
      this.sizeLimit, this.lineLimit := sizeLimit, lineLimit;
      bytesRead, lineCount, hasTrailingContent := 0, 0, false;
    }

    /** The byte loop: stops at the first newline past the limit. */
    method CountLines(ghost content: Bytes, data: Bytes) returns (ok: bool)
      requires lineCount == Newlines(content) && hasTrailingContent == Trailing(content)
      requires Within(Newlines(content), lineLimit)
      modifies `lineCount, `hasTrailingContent
      ensures ok <==> Within(Newlines(content + data), lineLimit)
      ensures ok ==> lineCount == Newlines(content + data) && hasTrailingContent == Trailing(content + data)
    {
      NewlinesJoin(content, data);
      for i := 0 to |data|
        invariant lineCount == Newlines(content) + Newlines(data[..i])
        invariant hasTrailingContent == Trailing(content + data[..i])
        invariant Within(lineCount, lineLimit)
      {
        assert data[..i + 1][..i] == data[..i];
        if data[i] == NEWLINE {
          lineCount := lineCount + 1;
          hasTrailingContent := false;
          if lineLimit > 0 && lineCount > lineLimit {
            MoreLines(data, i + 1);
            return false;
          }
        } else {
          hasTrailingContent := true;
        }
      }
      assert data[..|data|] == data;
      return true;
    }

    /** One read of a chunk that follows the given content. */
    method Read(ghost content: Bytes, chunk: Chunk) returns (err: ReadError)
      requires Counts(content)
      modifies this
      ensures err == ReadFate(content, chunk, sizeLimit, lineLimit)
      ensures err == NoError ==> Counts(content + chunk.data)
      ensures err == Eof ==> bytesRead == |content + chunk.data| && lineCount == LineTotal(content + chunk.data)
    {
      bytesRead := bytesRead + |chunk.data|;
      if sizeLimit > 0 && bytesRead > sizeLimit {
        return TooLarge;
      }
      var ok := CountLines(content, chunk.data);
      if !ok {
        return TooManyLines;
      }
      if chunk.eof && hasTrailingContent {
        lineCount := lineCount + 1;
        if lineLimit > 0 && lineCount > lineLimit {
          return TooManyLines;
        }
      }
      return if chunk.eof then Eof else NoError;
    }
  }

  lemma {:induction false} MoreLines(data: Bytes, i: nat)
    requires i <= |data|
    ensures Newlines(data[..i]) <= Newlines(data)
    decreases |data|
  {
    if i == |data| {
      assert data[..i] == data;
    } else {
      MoreLines(data[..|data| - 1], i);
      assert data[..|data| - 1][..i] == data[..i];
    }
  }

  // ---- any split of the content ----

  function Content(chunks: seq<Chunk>): Bytes {
    if |chunks| == 0 then [] else chunks[0].data + Content(chunks[1..])
  }

  /** Only the last chunk may carry the end. */
  predicate EndsOnce(chunks: seq<Chunk>) {
    |chunks| > 0 && chunks[|chunks| - 1].eof && forall i :: 0 <= i < |chunks| - 1 ==> !chunks[i].eof
  }

  /** The first report of a stream that follows some content. */
  function StreamFate(content: Bytes, chunks: seq<Chunk>, sizeLimit: int, lineLimit: int): ReadError
    requires EndsOnce(chunks)
    decreases |chunks|
  {
    var first := ReadFate(content, chunks[0], sizeLimit, lineLimit);
    if first != NoError then first
    else StreamFate(content + chunks[0].data, chunks[1..], sizeLimit, lineLimit)
  }

  /** Both limits are exceeded, the line limit already within the bytes allowed. */
  predicate Ambiguous(content: Bytes, sizeLimit: int, lineLimit: int) {
    0 < sizeLimit < |content| && lineLimit > 0 && Newlines(content[..sizeLimit]) > lineLimit
  }

  /** What the content alone calls for. */
  function Verdict(content: Bytes, sizeLimit: int, lineLimit: int): ReadError {
    if !Within(|content|, sizeLimit) then TooLarge
    else if !Within(LineTotal(content), lineLimit) then TooManyLines
    else Eof
  }

  /** A report of too many lines from a prefix is borne out by the whole, and means that
      the prefix is within the size limit. */
  lemma PrefixLines(prefix: Bytes, rest: Bytes, sizeLimit: int)
    requires Within(|prefix|, sizeLimit)
    ensures Newlines(prefix) <= Newlines(prefix + rest)
    ensures 0 < sizeLimit < |prefix + rest| ==> Newlines(prefix) <= Newlines((prefix + rest)[..sizeLimit])
  {
    NewlinesJoin(prefix, rest);
    if 0 < sizeLimit < |prefix + rest| {
      var more := rest[..sizeLimit - |prefix|];
      NewlinesJoin(prefix, more);
      assert (prefix + rest)[..sizeLimit] == prefix + more;
    }
  }

  /** However a stream is split: it is accepted if and only if its content is within the
      limits, a reported limit is one the content exceeds, and unless the content is
      ambiguous the report is the one the content calls for. */
  lemma {:induction false} StreamVerdict(prefix: Bytes, chunks: seq<Chunk>, sizeLimit: int, lineLimit: int)
    requires EndsOnce(chunks)
    ensures var content := prefix + Content(chunks);
            var fate := StreamFate(prefix, chunks, sizeLimit, lineLimit);
            && fate != NoError
            && (fate == Eof <==> Within(|content|, sizeLimit) && Within(LineTotal(content), lineLimit))
            && (fate == TooLarge ==> !Within(|content|, sizeLimit))
            && (fate == TooManyLines ==> !Within(LineTotal(content), lineLimit))
            && (!Ambiguous(content, sizeLimit, lineLimit) ==> fate == Verdict(content, sizeLimit, lineLimit))
    decreases |chunks|
  {
    var read, rest := prefix + chunks[0].data, Content(chunks[1..]);
    assert prefix + Content(chunks) == read + rest;
    if |chunks| == 1 {
      assert read + rest == read;
    } else {
      if Within(|read|, sizeLimit) {
        PrefixLines(read, rest, sizeLimit);
      }
      StreamVerdict(read, chunks[1..], sizeLimit, lineLimit);
    }
  }

  /** The report depends on the split if and only if the content is ambiguous. */
  lemma KindDependsOnSplit(content: Bytes, sizeLimit: int, lineLimit: int)
    ensures Ambiguous(content, sizeLimit, lineLimit) <==>
            (exists a, b :: EndsOnce(a) && EndsOnce(b) && Content(a) == content == Content(b) &&
                            StreamFate([], a, sizeLimit, lineLimit) != StreamFate([], b, sizeLimit, lineLimit))
  {
    if Ambiguous(content, sizeLimit, lineLimit) {
      TwoSplits(content, sizeLimit, lineLimit);
    } else {
      forall a, b | EndsOnce(a) && EndsOnce(b) && Content(a) == content == Content(b)
        ensures StreamFate([], a, sizeLimit, lineLimit) == StreamFate([], b, sizeLimit, lineLimit)
      {
        StreamVerdict([], a, sizeLimit, lineLimit);
        StreamVerdict([], b, sizeLimit, lineLimit);
        assert [] + content == content;
      }
    }
  }

  /** Of an ambiguous content, one read reports its size, and a read of just the bytes
      allowed reports its lines. */
  lemma TwoSplits(content: Bytes, sizeLimit: int, lineLimit: int)
    requires Ambiguous(content, sizeLimit, lineLimit)
    ensures exists a, b :: EndsOnce(a) && EndsOnce(b) && Content(a) == content == Content(b) &&
                           StreamFate([], a, sizeLimit, lineLimit) == TooLarge &&
                           StreamFate([], b, sizeLimit, lineLimit) == TooManyLines
  {
    var head, tail := content[..sizeLimit], content[sizeLimit..];
    var a, b := [Chunk(content, true)], [Chunk(head, false), Chunk(tail, true)];
    assert a[1..] == [] && b[1..] == [Chunk(tail, true)] && b[1..][1..] == [];
    assert Content(a) == content && Content(b) == head + (tail + []) == content;
    assert [] + content == content && [] + head == head;
    assert StreamFate([], a, sizeLimit, lineLimit) == TooLarge;
    assert StreamFate([], b, sizeLimit, lineLimit) == TooManyLines;
  }

  /** The rest of a stream after its first chunk was read without a report. */
  lemma Advance(content: Bytes, rest: seq<Chunk>, sizeLimit: int, lineLimit: int)
    requires EndsOnce(rest) && ReadFate(content, rest[0], sizeLimit, lineLimit) == NoError
    ensures EndsOnce(rest[1..])
    ensures content + Content(rest) == content + rest[0].data + Content(rest[1..])
    ensures StreamFate(content, rest, sizeLimit, lineLimit) ==
            StreamFate(content + rest[0].data, rest[1..], sizeLimit, lineLimit)
  {}

  lemma LastChunk(content: Bytes, rest: seq<Chunk>)
    requires EndsOnce(rest) && rest[0].eof
    ensures content + Content(rest) == content + rest[0].data
  {
    assert rest[1..] == [];
  }

  /** Reads a whole stream; on acceptance the counts are the content's. */
  method ReadAll(reader: LimitedCountingReader, chunks: seq<Chunk>) returns (err: ReadError)
    requires reader.Counts([]) && EndsOnce(chunks)
    modifies reader
    ensures err == StreamFate([], chunks, reader.sizeLimit, reader.lineLimit)
    ensures err == Eof <==>
              Within(|Content(chunks)|, reader.sizeLimit) && Within(LineTotal(Content(chunks)), reader.lineLimit)
    ensures err == TooLarge ==> !Within(|Content(chunks)|, reader.sizeLimit)
    ensures err == TooManyLines ==> !Within(LineTotal(Content(chunks)), reader.lineLimit)
    ensures err == Eof ==> reader.bytesRead == |Content(chunks)| && reader.lineCount == LineTotal(Content(chunks))
  {
    StreamVerdict([], chunks, reader.sizeLimit, reader.lineLimit);
    ghost var content: Bytes := [];
    var rest := chunks;
    assert content + Content(rest) == Content(chunks);
    while true
      invariant EndsOnce(rest) && reader.Counts(content)
      invariant content + Content(rest) == Content(chunks)
      invariant StreamFate([], chunks, reader.sizeLimit, reader.lineLimit) ==
                StreamFate(content, rest, reader.sizeLimit, reader.lineLimit)
      decreases |rest|
    {
      err := reader.Read(content, rest[0]);
      if err != NoError {
        if err == Eof {
          LastChunk(content, rest);
        }
        return;
      }
      Advance(content, rest, reader.sizeLimit, reader.lineLimit);
      content := content + rest[0].data;
      rest := rest[1..];
    }
  }
}
