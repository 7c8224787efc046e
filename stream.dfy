/**
 * extensions/Stream.kt: `InputStream.pipeTo(output)`, which copies a process's
 * output to a console stream through a reused 1024-character buffer, flushing
 * after every chunk. Characters only: the byte decoding of `reader()` and the
 * encoding of `writer()` are not modelled.
 */
module Stream {

  import opened Seqs

  const BufferSize: nat := 1024

  /** A read position in a series of non-empty chunks: inside a chunk, or at the end. */
  ghost predicate WellPlaced(chunks: seq<seq<char>>, pos: nat, offset: nat)
  {
    && pos <= |chunks|
    && (forall i :: 0 <= i < |chunks| ==> |chunks[i]| > 0)
    && (pos < |chunks| ==> offset < |chunks[pos]|)
    && (pos == |chunks| ==> offset == 0)
  }

  /** The characters from a read position to the end of the stream. */
  ghost function Unread(chunks: seq<seq<char>>, pos: nat, offset: nat): seq<char>
    requires WellPlaced(chunks, pos, offset)
  {
    if pos == |chunks| then [] else chunks[pos][offset..] + Concat(chunks[pos + 1..])
  }

  /** Reading the rest of the current chunk moves the position to the start of the next. */
  lemma UnreadNextChunk(chunks: seq<seq<char>>, pos: nat, offset: nat)
    requires WellPlaced(chunks, pos, offset) && pos < |chunks|
    ensures WellPlaced(chunks, pos + 1, 0)
    ensures Unread(chunks, pos, offset) == chunks[pos][offset..] + Unread(chunks, pos + 1, 0)
  {
    var rest := chunks[pos + 1..];
    if pos + 1 < |chunks| {
      assert rest[0] == chunks[pos + 1] && rest[1..] == chunks[pos + 2..];
      assert Concat(rest) == chunks[pos + 1] + Concat(chunks[pos + 2..]);
      assert chunks[pos + 1][0..] == chunks[pos + 1];
    }
  }

  /** Reading part of the current chunk moves the position within it. */
  lemma UnreadSameChunk(chunks: seq<seq<char>>, pos: nat, offset: nat, count: nat)
    requires WellPlaced(chunks, pos, offset) && pos < |chunks|
    requires count < |chunks[pos]| - offset
    ensures WellPlaced(chunks, pos, offset + count)
    ensures Unread(chunks, pos, offset) == chunks[pos][offset..offset + count] + Unread(chunks, pos, offset + count)
  {
    var chunk, rest := chunks[pos], Concat(chunks[pos + 1..]);
    var read, kept := chunk[offset..offset + count], chunk[offset + count..];
    assert chunk[offset..] == read + kept;
    calc {
      Unread(chunks, pos, offset);
      (read + kept) + rest;
      read + (kept + rest);
      read + Unread(chunks, pos, offset + count);
    }
  }

  /** Copies `chars` to the front of `buffer`. */
  method Fill(buffer: array<char>, chars: seq<char>)
    requires |chars| <= buffer.Length
    modifies buffer
    ensures buffer[..|chars|] == chars
  {
    forall i | 0 <= i < |chars| {
      buffer[i] := chars[i];
    }
  }

  /**
   * A character reader over a stream that becomes available in chunks. A read
   * returns what is left of the current chunk, cut at the buffer's length; it
   * never spans two chunks. -1 signals the end of the stream.
   */
  class ChunkReader {
    var chunks: seq<seq<char>>
    var pos: nat
    var offset: nat
    /** What each successful read delivered, in order. */
    ghost var served: seq<seq<char>>

    ghost predicate Valid()
      reads this
    {
      WellPlaced(chunks, pos, offset)
    }

    /** The characters not yet read. */
    ghost function Remaining(): seq<char>
      reads this
      requires Valid()
    {
      Unread(chunks, pos, offset)
    }

    constructor (chunks: seq<seq<char>>)
      requires forall i :: 0 <= i < |chunks| ==> |chunks[i]| > 0
      ensures Valid() && this.chunks == chunks && Remaining() == Concat(chunks) && served == []
    {
      this.chunks := chunks;
      pos, offset := 0, 0;
      served := [];
      new;
      assert chunks[0..] == chunks;
    }

    /** `Reader.read(cbuf)`. */
    method Read(buffer: array<char>) returns (count: int)
      requires Valid()
      modifies this, buffer
      ensures Valid() && chunks == old(chunks)
      ensures count == -1 <==> buffer.Length > 0 && old(Remaining()) == []
      ensures count == -1 ==> Remaining() == [] && served == old(served)
      ensures count != -1 ==>
        && 0 <= count <= buffer.Length
        && (buffer.Length > 0 ==> count > 0)
        && count <= |old(Remaining())|
        && buffer[..count] == old(Remaining())[..count]
        && Remaining() == old(Remaining())[count..]
        && served == old(served) + [buffer[..count]]
    {
      if buffer.Length == 0 {
        served := served + [buffer[..0]];
        return 0;
      }
      if pos == |chunks| {
        return -1;
      }
      ghost var before := Remaining();
      var left := |chunks[pos]| - offset;
      count := if left <= buffer.Length then left else buffer.Length;
      var piece := chunks[pos][offset..offset + count];
      Fill(buffer, piece);
      if count == left {
        UnreadNextChunk(chunks, pos, offset);
        assert chunks[pos][offset..] == piece;
        pos, offset := pos + 1, 0;
      } else {
        UnreadSameChunk(chunks, pos, offset, count);
        offset := offset + count;
      }
      assert before[..count] == piece && before[count..] == Remaining();
      served := served + [piece];
    }
  }

  /** One call made on a writer. */
  datatype WriterCall = WriteCall(chars: seq<char>) | FlushCall

  /** A buffered character writer: `write` collects, `flush` delivers to the output. */
  class BufferedWriter {
    var pending: seq<char>
    var output: seq<char>
    var calls: seq<WriterCall>

    constructor ()
      ensures pending == [] && output == [] && calls == []
    {
      pending, output, calls := [], [], [];
    }

    /** `Writer.write(cbuf, off, len)`. */
    method Write(buffer: array<char>, off: nat, len: nat)
      requires off + len <= buffer.Length
      modifies this
      ensures pending == old(pending) + buffer[off..off + len]
      ensures output == old(output)
      ensures calls == old(calls) + [WriteCall(buffer[off..off + len])]
    {
      pending := pending + buffer[off..off + len];
      calls := calls + [WriteCall(buffer[off..off + len])];
    }

    /** `Writer.flush()`. */
    method Flush()
      modifies this
      ensures output == old(output) + old(pending) && pending == []
      ensures calls == old(calls) + [FlushCall]
    {
      output := output + pending;
      pending := [];
      calls := calls + [FlushCall];
    }
  }

  /** The writer calls `pipeTo` makes for a series of chunks: each written, then flushed. */
  function WriteAndFlush(chunks: seq<seq<char>>): (r: seq<WriterCall>)
    ensures |r| == 2 * |chunks|
  {
    if chunks == [] then [] else [WriteCall(chunks[0]), FlushCall] + WriteAndFlush(chunks[1..])
  }

  /** The calls alternate: the i-th chunk is written by call 2i and flushed by call 2i + 1. */
  lemma {:induction false} WriteAndFlushAt(chunks: seq<seq<char>>, i: nat)
    requires i < |chunks|
    ensures WriteAndFlush(chunks)[2 * i] == WriteCall(chunks[i])
    ensures WriteAndFlush(chunks)[2 * i + 1] == FlushCall
  {
    if i > 0 {
      WriteAndFlushAt(chunks[1..], i - 1);
    }
  }

  lemma {:induction false} WriteAndFlushAppend(chunks: seq<seq<char>>, c: seq<char>)
    ensures WriteAndFlush(chunks + [c]) == WriteAndFlush(chunks) + [WriteCall(c), FlushCall]
  {
    if chunks != [] {
      assert (chunks + [c])[1..] == chunks[1..] + [c];
      WriteAndFlushAppend(chunks[1..], c);
    }
  }

  /** How far `pipeTo` has got: the chunks `copied` so far, followed by `left`, make up
      the input; every chunk was written then flushed; the output grew by those chunks. */
  ghost predicate CopyProgress(
    input: seq<char>, copied: seq<seq<char>>, left: seq<char>,
    calls0: seq<WriterCall>, calls: seq<WriterCall>,
    out0: seq<char>, output: seq<char>, pending: seq<char>)
  {
    && Concat(copied) + left == input
    && (forall c :: c in copied ==> 0 < |c| <= BufferSize)
    && calls == calls0 + WriteAndFlush(copied)
    && output + pending == out0 + Concat(copied)
    && (copied != [] ==> pending == [])
  }

  /** Copying one more chunk (a write, then a flush) keeps the progress relation. */
  lemma CopyStep(
    input: seq<char>, copied: seq<seq<char>>, chunk: seq<char>, left: seq<char>, left': seq<char>,
    calls0: seq<WriterCall>, calls: seq<WriterCall>,
    out0: seq<char>, output: seq<char>, pending: seq<char>)
    requires CopyProgress(input, copied, left, calls0, calls, out0, output, pending)
    requires left == chunk + left' && 0 < |chunk| <= BufferSize
    ensures CopyProgress(input, copied + [chunk], left', calls0, calls + [WriteCall(chunk), FlushCall],
                         out0, output + pending + chunk, [])
  {
    ConcatAppend(copied, chunk);
    WriteAndFlushAppend(copied, chunk);
    assert Concat(copied + [chunk]) + left' == Concat(copied) + (chunk + left');
  }

  /** Once the input is used up, the output received exactly the input, in order;
      the chunk written by the i-th write call is the i-th chunk read, and that
      write is immediately followed by a flush. */
  lemma CopyComplete(
    input: seq<char>, copied: seq<seq<char>>,
    calls0: seq<WriterCall>, calls: seq<WriterCall>,
    out0: seq<char>, output: seq<char>, pending: seq<char>)
    requires CopyProgress(input, copied, [], calls0, calls, out0, output, pending)
    ensures input != [] ==> pending == [] && output == out0 + input
    ensures input == [] ==> copied == [] && calls == calls0 && output + pending == out0
    ensures |calls| == |calls0| + 2 * |copied|
    ensures forall i :: 0 <= i < |copied| ==>
      calls[|calls0| + 2 * i] == WriteCall(copied[i]) && calls[|calls0| + 2 * i + 1] == FlushCall
  {
    assert Concat(copied) == input;
    forall i | 0 <= i < |copied|
      ensures calls[|calls0| + 2 * i] == WriteCall(copied[i]) && calls[|calls0| + 2 * i + 1] == FlushCall
    {
      WriteAndFlushAt(copied, i);
    }
  }

  /** One round of the `pipeTo` loop: read into the buffer; at the end of the stream
      stop, otherwise write what was read and flush. */
  method CopyChunk(reader: ChunkReader, writer: BufferedWriter, buffer: array<char>)
    returns (done: bool, ghost chunk: seq<char>)
    requires reader.Valid() && buffer.Length == BufferSize
    modifies reader, writer, buffer
    ensures reader.Valid()
    ensures done <==> old(reader.Remaining()) == []
    ensures done ==> reader.Remaining() == [] && reader.served == old(reader.served) && unchanged(writer)
    ensures !done ==>
      && 0 < |chunk| <= BufferSize
      && old(reader.Remaining()) == chunk + reader.Remaining()
      && reader.served == old(reader.served) + [chunk]
      && writer.calls == old(writer.calls) + [WriteCall(chunk), FlushCall]
      && writer.output == old(writer.output) + old(writer.pending) + chunk
      && writer.pending == []
  {
    ghost var left := reader.Remaining();
    var count := reader.Read(buffer);
    if count == -1 {
      return true, [];
    }
    chunk := buffer[..count];
    assert left == chunk + reader.Remaining() by {
      assert left == left[..count] + left[count..];
    }
    assert buffer[0..count] == chunk;
    writer.Write(buffer, 0, count);
    writer.Flush();
    done := false;
  }

  /** `InputStream.pipeTo(output)`: everything the reader still holds reaches the writer,
      in order, one buffer-sized chunk per write, each write followed by a flush. */
  method PipeTo(reader: ChunkReader, writer: BufferedWriter)
    requires reader.Valid()
    modifies reader, writer
    ensures reader.Valid() && reader.Remaining() == []
    ensures |reader.served| >= |old(reader.served)| && reader.served[..|old(reader.served)|] == old(reader.served)
    ensures CopyProgress(old(reader.Remaining()), reader.served[|old(reader.served)|..], [],
                         old(writer.calls), writer.calls, old(writer.output) + old(writer.pending),
                         writer.output, writer.pending)
  {
    var buffer := new char[BufferSize];
    ghost var served0 := reader.served;
    ghost var input := reader.Remaining();
    ghost var out0 := writer.output + writer.pending;
    ghost var calls0 := writer.calls;
    ghost var copied: seq<seq<char>> := [];
    while true
      invariant reader.Valid() && buffer.Length == BufferSize
      invariant reader.served == served0 + copied
      invariant CopyProgress(input, copied, reader.Remaining(), calls0, writer.calls, out0, writer.output, writer.pending)
      decreases |reader.Remaining()|
    {
      ghost var left := reader.Remaining();
      ghost var calls, output, pending := writer.calls, writer.output, writer.pending;
      var done, chunk := CopyChunk(reader, writer, buffer);
      if done {
        break;
      }
      CopyStep(input, copied, chunk, left, reader.Remaining(), calls0, calls, out0, output, pending);
      copied := copied + [chunk];
    }
    assert reader.served[|served0|..] == copied;
  }
}
