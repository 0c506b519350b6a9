/** The bytes of a stream on their way to its sink, cut into the parts that are at the same place. */
module Pipes {
  import opened Sequences

  /** What follows when a put of the writer is done. */
  datatype After = Done | PutRest(data: seq<Byte>) | SplitRest(data: seq<Byte>) | FlushSink

  /**
   * What the user's call waits for: nothing; a put; the running batch before it can put; the put that
   * may start now; the flush of the sink.
   */
  datatype Writer = Idle | Putting(chunk: seq<Byte>, after: After) | Waiting(chunk: seq<Byte>, after: After)
                  | Released(chunk: seq<Byte>, after: After) | SinkFlushing

  /** The batched flush: not there, known to the poller, putting what was buffered, flushing the sink. */
  datatype Flusher = NoBatch | Queued | BatchPut(chunk: seq<Byte>) | BatchFlush

  /** The bytes of a call that are not yet put or buffered. */
  function Pending(a: After): seq<Byte> {
    match a
    case PutRest(d) => d
    case SplitRest(d) => d
    case _ => []
  }

  function WriterChunk(w: Writer): seq<Byte> {
    if w.Idle? || w.SinkFlushing? then [] else w.chunk
  }

  function WriterRest(w: Writer): seq<Byte> {
    if w.Idle? || w.SinkFlushing? then [] else Pending(w.after)
  }

  function BatchChunk(f: Flusher): seq<Byte> {
    if f.BatchPut? then f.chunk else []
  }

  /** A chunk the sink took, and whether a flush sent it. */
  datatype Chunk = Chunk(data: seq<Byte>, byFlush: bool)

  function Concat(cs: seq<Chunk>): seq<Byte> {
    if cs == [] then [] else Concat(cs[..|cs| - 1]) + cs[|cs| - 1].data
  }

  lemma ConcatAppend(cs: seq<Chunk>, c: Chunk)
    ensures Concat(cs + [c]) == Concat(cs) + c.data
  {
    assert (cs + [c])[..|cs|] == cs;
  }

  /** part is what stands in all from lo to hi. */
  ghost predicate PartOf(part: seq<Byte>, all: seq<Byte>, lo: int, hi: int) {
    0 <= lo <= hi <= |all| && |part| == hi - lo && forall i :: 0 <= i < |part| ==> part[i] == all[lo + i]
  }

  /** All bytes are on their way, in order: taken by the sink, in a batch, in a put, behind it, buffered. */
  ghost predicate Intact(taken: seq<Byte>, batch: seq<Byte>, chunk: seq<Byte>, rest: seq<Byte>, buf: seq<Byte>,
        all: seq<Byte>)
  {
    |taken| + |batch| + |chunk| + |rest| + |buf| == |all| &&
    var d := |all| - |buf|;
    var c := d - |rest|;
    var b := c - |chunk|;
    var a := b - |batch|;
    && PartOf(taken, all, 0, a) && PartOf(batch, all, a, b) && PartOf(chunk, all, b, c) && PartOf(rest, all, c, d)
    && PartOf(buf, all, d, |all|)
  }

  lemma PartStays(part: seq<Byte>, all: seq<Byte>, lo: int, hi: int, data: seq<Byte>)
    requires PartOf(part, all, lo, hi)
    ensures PartOf(part, all + data, lo, hi)
  {
  }

  lemma PartsJoin(x: seq<Byte>, y: seq<Byte>, all: seq<Byte>, lo: int, mid: int, hi: int)
    requires PartOf(x, all, lo, mid) && PartOf(y, all, mid, hi)
    ensures PartOf(x + y, all, lo, hi)
  {
  }

  /** Two adjacent parts, cut differently. */
  lemma Recut(x: seq<Byte>, y: seq<Byte>, u: seq<Byte>, v: seq<Byte>, all: seq<Byte>, lo: int, mid: int, hi: int)
    requires PartOf(x, all, lo, mid) && PartOf(y, all, mid, hi) && u + v == x + y
    ensures PartOf(u, all, lo, lo + |u|) && PartOf(v, all, lo + |u|, hi)
  {
    PartsJoin(x, y, all, lo, mid, hi);
    assert u == (u + v)[..|u|] && v == (u + v)[|u|..];
  }

  /** New bytes at the end: with what was buffered, they make up a put, what follows it, and a new buffer. */
  lemma Extends(taken: seq<Byte>, batch: seq<Byte>, buf: seq<Byte>, all: seq<Byte>, data: seq<Byte>, chunk: seq<Byte>,
        rest: seq<Byte>, left: seq<Byte>)
    requires Intact(taken, batch, [], [], buf, all) && chunk + (rest + left) == buf + data
    ensures Intact(taken, batch, chunk, rest, left, all + data)
  {
    var n, d := |all|, |all| - |buf|;
    PartStays(taken, all, 0, d - |batch|, data);
    PartStays(batch, all, d - |batch|, d, data);
    PartStays(buf, all, d, n, data);
    assert PartOf(data, all + data, n, n + |data|);
    Recut(buf, data, chunk, rest + left, all + data, d, n, n + |data|);
    assert |rest| + |left| == |rest + left|;
    assert PartOf([], all + data, n + |data|, n + |data|);
    assert (rest + left) + [] == rest + left;
    Recut(rest + left, [], rest, left, all + data, d + |chunk|, n + |data|, n + |data|);
  }

  /** The writer's chunk is taken. */
  lemma PutTaken(sink: seq<Chunk>, chunk: seq<Byte>, byFlush: bool, rest: seq<Byte>, buf: seq<Byte>, all: seq<Byte>)
    requires Intact(Concat(sink), [], chunk, rest, buf, all)
    ensures Intact(Concat(sink + [Chunk(chunk, byFlush)]), [], [], rest, buf, all)
    ensures |Concat(sink + [Chunk(chunk, byFlush)])| == |Concat(sink)| + |chunk|
  {
    ConcatAppend(sink, Chunk(chunk, byFlush));
    var c := |all| - |buf| - |rest|;
    PartsJoin(Concat(sink), chunk, all, 0, c - |chunk|, c);
  }

  /** What was behind the writer's chunk is its next chunk, or goes into the buffer. */
  lemma RestMoves(taken: seq<Byte>, rest: seq<Byte>, all: seq<Byte>)
    requires Intact(taken, [], [], rest, [], all)
    ensures Intact(taken, [], rest, [], [], all) && Intact(taken, [], [], [], rest, all)
  {
  }

  /** Or its first n bytes are the next chunk. */
  lemma RestSplits(taken: seq<Byte>, rest: seq<Byte>, all: seq<Byte>, n: nat)
    requires Intact(taken, [], [], rest, [], all) && n <= |rest|
    ensures Intact(taken, [], rest[..n], rest[n..], [], all)
  {
  }

  /** What is buffered becomes the chunk of a batch. */
  lemma BufferMoves(taken: seq<Byte>, buf: seq<Byte>, all: seq<Byte>)
    requires Intact(taken, [], [], [], buf, all)
    ensures Intact(taken, buf, [], [], [], all)
  {
  }

  /** The chunk of a batch is taken. */
  lemma BatchMoves(sink: seq<Chunk>, batch: seq<Byte>, chunk: seq<Byte>, rest: seq<Byte>, buf: seq<Byte>,
        all: seq<Byte>)
    requires Intact(Concat(sink), batch, chunk, rest, buf, all)
    ensures Intact(Concat(sink + [Chunk(batch, true)]), [], chunk, rest, buf, all)
    ensures |Concat(sink + [Chunk(batch, true)])| == |Concat(sink)| + |batch|
  {
    ConcatAppend(sink, Chunk(batch, true));
    var b := |all| - |buf| - |rest| - |chunk|;
    PartsJoin(Concat(sink), batch, all, 0, b - |batch|, b);
  }

  /** Intact, said with the bytes in a row. */
  lemma IntactInARow(taken: seq<Byte>, batch: seq<Byte>, chunk: seq<Byte>, rest: seq<Byte>, buf: seq<Byte>,
        all: seq<Byte>)
    requires Intact(taken, batch, chunk, rest, buf, all)
    ensures taken + batch + chunk + rest + buf == all
  {
    var d := |all| - |buf|;
    var c := d - |rest|;
    PartsJoin(taken, batch, all, 0, |taken|, |taken| + |batch|);
    PartsJoin(taken + batch, chunk, all, 0, |taken| + |batch|, c);
    PartsJoin(taken + batch + chunk, rest, all, 0, c, d);
    PartsJoin(taken + batch + chunk + rest, buf, all, 0, d, |all|);
  }

  /** _flushing. */
  predicate Busy(f: Flusher) {
    f.BatchPut? || f.BatchFlush?
  }

  /** A chunk of the writer: not empty, and of the stream's size if it is trimmed, unless a flush sends it. */
  predicate WriterOk(w: Writer, buf: seq<Byte>, size: nat, trimToSize: bool, batchFlushes: bool) {
    && (w.SinkFlushing? ==> buf == [])
    && (!w.Idle? && !w.SinkFlushing? ==>
          && w.chunk != []
          && (trimToSize && !w.after.FlushSink? ==> |w.chunk| == size)
          && (w.after.PutRest? ==> w.after.data != [] && !trimToSize)
          && (!w.after.Done? ==> buf == [])
          && (w.after.FlushSink? ==> !batchFlushes))
  }

  predicate ChunksOk(cs: seq<Chunk>, size: nat, trimToSize: bool) {
    forall i :: 0 <= i < |cs| ==> cs[i].data != [] && (trimToSize && !cs[i].byFlush ==> |cs[i].data| == size)
  }

  /** Who may do what while the other is at work. */
  predicate TurnsOk(w: Writer, f: Flusher, flush: bool, puts: nat, batchFlushes: bool) {
    && (!batchFlushes ==> f == NoBatch)
    && (flush ==> f != NoBatch && w.Idle?)
    && (w.Putting? || w.SinkFlushing? ==> !Busy(f))
    && (w.Waiting? ==> Busy(f))
    && (w.Released? ==> f == NoBatch)
    && (f.BatchPut? ==> f.chunk != [])
    && puts == (if w.Putting? then 1 else 0) + (if f.BatchPut? then 1 else 0)
  }

  /**
   * What was written before the last batched flush has been put; and the sink is flushed behind it, or
   * will be. taken, batch and put count bytes: in the sink, in the batch, and up to the end of the put.
   */
  predicate MarkOk(mark: nat, flushed: nat, missed: bool, flush: bool, f: Flusher, taken: nat, put: int) {
    && (flush || mark <= put) && flushed <= taken
    && (missed || flush || mark <= if Busy(f) then taken + |BatchChunk(f)| else flushed)
  }

  lemma CutData(buf: seq<Byte>, data: seq<Byte>, now: nat)
    requires now <= |data|
    ensures (buf + data[..now]) + (data[now..] + []) == buf + data
    ensures (buf + data[..now]) + ([] + data[now..]) == buf + data
  {
    assert data[..now] + data[now..] == data;
    assert (buf + data[..now]) + data[now..] == buf + (data[..now] + data[now..]);
    assert data[now..] + [] == data[now..] && [] + data[now..] == data[now..];
  }

  /** The buffer is filled from the data and put; the rest of the data follows, or is buffered. */
  lemma Fills(taken: seq<Byte>, batch: seq<Byte>, buf: seq<Byte>, all: seq<Byte>, data: seq<Byte>, now: nat)
    requires Intact(taken, batch, [], [], buf, all) && now <= |data|
    ensures Intact(taken, batch, buf + data[..now], data[now..], [], all + data)
    ensures Intact(taken, batch, buf + data[..now], [], data[now..], all + data)
  {
    CutData(buf, data, now);
    Extends(taken, batch, buf, all, data, buf + data[..now], data[now..], []);
    Extends(taken, batch, buf, all, data, buf + data[..now], [], data[now..]);
  }

  /** The data is buffered. */
  lemma Buffers(taken: seq<Byte>, batch: seq<Byte>, buf: seq<Byte>, all: seq<Byte>, data: seq<Byte>)
    requires Intact(taken, batch, [], [], buf, all)
    ensures Intact(taken, batch, [], [], buf + data, all + data)
  {
    assert [] + ([] + (buf + data)) == buf + data;
    Extends(taken, batch, buf, all, data, [], [], buf + data);
  }
}

/**
 * Buffered output (core/iostream-impl.hh, class output_stream): writes are collected into chunks for
 * a sink that takes one chunk at a time, and a flush either happens at once or is batched and done by
 * the reactor's poller. The user waits for each write before the next call; a batched flush returns
 * at once, so it runs beside later writes.
 */
module OutputStreams {
  import opened Pipes
  import opened Sequences

  class OutputStream {
    const size: nat
    const trimToSize: bool
    const batchFlushes: bool
    var buf: seq<Byte>
    var flush: bool
    var error: bool
    var writer: Writer
    var flusher: Flusher
    /** The sink: the chunks it has taken, how many puts it is working on, and whether one failed. */
    var sink: seq<Chunk>
    var puts: nat
    ghost var failed: bool
    /** All bytes written, and how many of them the last batched flush is to deliver. */
    ghost var written: seq<Byte>
    ghost var mark: nat
    /** How many bytes the last flush of the sink covered. */
    ghost var flushed: nat
    /** The last batched flush was called off by a put, or its flush of the sink failed. */
    ghost var missed: bool

    /** _flushing. */
    predicate Flushing()
      reads this
    {
      Busy(flusher)
    }

    /** Every written byte is on its way, in order. */
    ghost predicate AllIntact()
      reads this
    {
      Intact(Concat(sink), BatchChunk(flusher), WriterChunk(writer), WriterRest(writer), buf, written)
    }

    ghost predicate Valid()
      reads this
    {
      && size > 0 && |buf| <= size && mark <= |written|
      && TurnsOk(writer, flusher, flush, puts, batchFlushes)
      && WriterOk(writer, buf, size, trimToSize, batchFlushes) && ChunksOk(sink, size, trimToSize)
      && (!failed ==>
            && AllIntact()
            && MarkOk(mark, flushed, missed, flush, flusher, |Concat(sink)|, |written| - |buf| - |WriterRest(writer)|))
    }

    /** The sink never works on two puts at a time. */
    lemma PutsDoNotOverlap()
      requires Valid()
      ensures puts <= 1
    {
    }

    /** What is on its way, oldest byte first, is what was written. */
    lemma Pipeline()
      requires Valid() && !failed
      ensures Concat(sink) + BatchChunk(flusher) + WriterChunk(writer) + WriterRest(writer) + buf == written
    {
      IntactInARow(Concat(sink), BatchChunk(flusher), WriterChunk(writer), WriterRest(writer), buf, written);
    }

    constructor (size: nat, trimToSize: bool, batchFlushes: bool)
      requires size > 0
      ensures Valid() && written == [] && sink == [] && writer.Idle? && !failed && flushed == 0 && !missed
      ensures this.size == size && this.trimToSize == trimToSize && this.batchFlushes == batchFlushes
      ensures buf == [] && flusher == NoBatch && !error && mark == 0
    {
      this.size, this.trimToSize, this.batchFlushes := size, trimToSize, batchFlushes;
      buf, flush, error, writer, flusher, sink, puts, failed, written, mark :=
        [], false, false, Idle, NoBatch, [], 0, false, [], 0;
      flushed, missed := 0, false;
    }

    /** put(): a scheduled flush is called off, and a running one is waited for. */
    method Put(chunk: seq<Byte>, after: After)
      modifies `flush, `writer, `puts, `missed
      ensures !flush && missed == (old(missed) || old(flush))
      ensures if Flushing() then writer == Waiting(chunk, after) && puts == old(puts)
              else writer == Putting(chunk, after) && puts == old(puts) + 1
    {
      missed := missed || flush;
      flush := false;
      if Flushing() {
        writer := Waiting(chunk, after);
      } else {
        writer := Putting(chunk, after);
        puts := puts + 1;
      }
    }

    /** split_and_put(): one chunk, with the rest to follow, or the buffer for what is less than a chunk. */
    method SplitAndPut(data: seq<Byte>)
      modifies `flush, `writer, `puts, `buf, `missed
      ensures |data| < size ==>
              buf == data && writer == Idle && flush == old(flush) && puts == old(puts) && missed == old(missed)
      ensures |data| >= size ==>
                && buf == old(buf) && !flush && missed == (old(missed) || old(flush))
                && if Flushing() then writer == Waiting(data[..size], SplitRest(data[size..])) && puts == old(puts)
                   else writer == Putting(data[..size], SplitRest(data[size..])) && puts == old(puts) + 1
    {
      if |data| < size {
        buf := data;
        writer := Idle;
      } else {
        Put(data[..size], SplitRest(data[size..]));
      }
    }

    /** That many more bytes stay in the buffer. */
    predicate Fits(n: nat)
      reads this
    {
      |buf| + n < size || (buf != [] && |buf| + n == size)
    }

    /** The data is written, and a put of the writer is under way or waits. */
    twostate predicate PutsMore(data: seq<Byte>)
      reads this
    {
      && Valid() && written == old(written) + data
      && !flush && missed == (old(missed) || old(flush))
      && (if Flushing() then writer.Waiting? else writer.Putting?) && !writer.after.FlushSink?
    }

    /** What is put, what follows it, and what stays in the buffer. */
    ghost predicate PutsAndKeeps(chunk: seq<Byte>, after: After, kept: seq<Byte>)
      reads this
    {
      (writer.Putting? || writer.Waiting?) && writer.chunk == chunk && writer.after == after && buf == kept
    }

    /** The data is written, and is all in the buffer. */
    twostate predicate Buffered(data: seq<Byte>)
      reads this
    {
      && Valid() && written == old(written) + data
      && writer.Idle? && buf == old(buf) + data && flush == old(flush) && missed == old(missed)
    }

    /** A full buffer goes out first; what is left of the data follows. */
    method WriteBehindBuffer(data: seq<Byte>)
      requires Valid() && writer.Idle? && buf != [] && |data| >= 2 * size - |buf|
      modifies `buf, `flush, `writer, `puts, `written, `missed
      ensures PutsMore(data)
      ensures var now := size - |old(buf)|;
              PutsAndKeeps(old(buf) + data[..now],
                           if trimToSize then SplitRest(data[now..]) else PutRest(data[now..]), [])
    {
      var now := size - |buf|;
      var full, rest := buf + data[..now], data[now..];
      if !failed {
        Fills(Concat(sink), BatchChunk(flusher), buf, written, data, now);
      }
      buf := [];
      if trimToSize {
        Put(full, SplitRest(rest));
      } else {
        Put(full, PutRest(rest));
      }
      written := written + data;
    }

    method WriteDirectly(data: seq<Byte>)
      requires Valid() && writer.Idle? && buf == [] && |data| >= size
      modifies `buf, `flush, `writer, `puts, `written, `missed
      ensures PutsMore(data)
      ensures if trimToSize then PutsAndKeeps(data[..size], SplitRest(data[size..]), [])
              else PutsAndKeeps(data, Done, [])
    {
      ghost var now := if trimToSize then size else |data|;
      assert buf + data[..now] == data[..now];
      if !failed {
        Fills(Concat(sink), BatchChunk(flusher), buf, written, data, now);
      }
      if trimToSize {
        SplitAndPut(data);
      } else {
        assert data[..now] == data;
        Put(data, Done);
      }
      written := written + data;
    }

    method WriteToBuffer(data: seq<Byte>)
      requires Valid() && writer.Idle? && |data| < if buf != [] then 2 * size - |buf| else size
      modifies `buf, `flush, `writer, `puts, `written, `missed
      ensures if old(Fits(|data|)) then Buffered(data)
              else
                var now := size - |old(buf)|;
                now <= |data| && PutsMore(data) && PutsAndKeeps(old(buf) + data[..now], Done, data[now..])
    {
      var n := |data|;
      var now := if n < size - |buf| then n else size - |buf|;
      if now == n {
        AddToBuffer(data);
      } else {
        PutFullBuffer(data, now);
      }
    }

    method AddToBuffer(data: seq<Byte>)
      requires Valid() && writer.Idle? && |buf| + |data| <= size
      modifies `buf, `written
      ensures Buffered(data)
    {
      if !failed {
        Buffers(Concat(sink), BatchChunk(flusher), buf, written, data);
      }
      buf := buf + data;
      written := written + data;
    }

    method PutFullBuffer(data: seq<Byte>, now: nat)
      requires Valid() && writer.Idle? && now < |data| && |buf| + now == size && |data| - now <= size
      modifies `buf, `flush, `writer, `puts, `written, `missed
      ensures PutsMore(data) && PutsAndKeeps(old(buf) + data[..now], Done, data[now..])
    {
      var first := buf + data[..now];
      if !failed {
        Fills(Concat(sink), BatchChunk(flusher), buf, written, data, now);
      }
      buf := data[now..];
      Put(first, Done);
      written := written + data;
    }

    /** write(): returns with the call waiting in writer, or done. A flush that is scheduled is called off by a put. */
    method Write(data: seq<Byte>)
      requires Valid() && writer.Idle?
      modifies `buf, `flush, `writer, `puts, `written, `missed
      ensures if old(Fits(|data|)) then Buffered(data) else PutsMore(data)
      ensures !old(Fits(|data|)) ==>
                var now := size - |old(buf)|;
                && now <= |data|
                && if old(buf) == [] && !trimToSize then PutsAndKeeps(data, Done, [])
                   else if old(buf) != [] && |data| - now < size
                   then PutsAndKeeps(old(buf) + data[..now], Done, data[now..])
                   else PutsAndKeeps(old(buf) + data[..now],
                                     if trimToSize then SplitRest(data[now..]) else PutRest(data[now..]), [])
    {
      if |data| >= if buf != [] then 2 * size - |buf| else size {
        if buf != [] {
          WriteBehindBuffer(data);
        } else {
          WriteDirectly(data);
        }
      } else {
        WriteToBuffer(data);
      }
    }

    /**
     * flush(): at once when flushes are not batched; otherwise it delivers an outstanding error or
     * leaves the work to the poller.
     */
    method Flush() returns (failure: bool)
      requires Valid() && writer.Idle?
      modifies `buf, `flush, `writer, `puts, `flusher, `error, `mark, `missed
      ensures Valid() && failure == (batchFlushes && old(error)) && error == (old(error) && !batchFlushes)
      ensures batchFlushes && !failure ==>
              flush && flusher == (if old(flusher) == NoBatch then Queued else old(flusher)) && mark == |written|
                && buf == old(buf) && writer.Idle?
      ensures !batchFlushes && old(buf) != [] ==> writer == Putting(old(buf), FlushSink)
      ensures !batchFlushes && old(buf) == [] ==> writer.Idle? && mark == old(mark)
    {
      failure := false;
      if !batchFlushes {
        if buf != [] {
          FlushBuffer();
        }
      } else if error {
        error, failure := false, true;
      } else {
        flush, missed := true, false;
        mark := |written|;
        if flusher == NoBatch {
          flusher := Queued;
        }
      }
    }

    method FlushBuffer()
      requires Valid() && writer.Idle? && !batchFlushes && buf != []
      modifies `buf, `flush, `writer, `puts, `missed
      ensures Valid() && writer == Putting(old(buf), FlushSink)
    {
      var chunk := buf;
      if !failed {
        assert chunk + ([] + []) == buf + [] && written + [] == written;
        Extends(Concat(sink), BatchChunk(flusher), buf, written, [], chunk, [], []);
      }
      buf := [];
      Put(chunk, FlushSink);
    }

    /** poll_flush(): a flush that was called off ends the batch, and lets the writer go on. */
    method PollFlush()
      requires Valid() && (flusher == Queued || flusher == BatchFlush)
      requires flusher == BatchFlush && !failed && !missed && !flush ==> mark <= flushed
      modifies `flush, `flusher, `buf, `puts, `writer
      ensures Valid() && !flush && |buf| <= |old(buf)|
      ensures !old(flush) ==>
              flusher == NoBatch
                && writer == if old(writer).Waiting? then Released(old(writer).chunk, old(writer).after)
                  else old(writer)
      ensures old(flush) ==>
              writer == old(writer) && buf == [] && flusher == if old(buf) != [] then BatchPut(old(buf)) else BatchFlush
    {
      if !flush {
        flusher := NoBatch;
        if writer.Waiting? {
          writer := Released(writer.chunk, writer.after);
        }
        return;
      }
      flush := false;
      if buf != [] {
        if !failed {
          BufferMoves(Concat(sink), buf, written);
        }
        flusher, puts, buf := BatchPut(buf), puts + 1, [];
      } else {
        flusher := BatchFlush;
      }
    }

    method BatchTaken()
      requires Valid() && flusher.BatchPut?
      modifies `flusher, `puts, `sink
      ensures Valid() && sink == old(sink) + [Chunk(old(flusher).chunk, true)] && flusher == BatchFlush
    {
      var c := Chunk(flusher.chunk, true);
      if !failed {
        BatchMoves(sink, flusher.chunk, WriterChunk(writer), WriterRest(writer), buf, written);
      }
      sink, puts, flusher := sink + [c], puts - 1, BatchFlush;
    }

    /** The sink is done with the chunk of a batch. */
    method BatchPutDone(ok: bool)
      requires Valid() && flusher.BatchPut?
      modifies `flush, `flusher, `buf, `puts, `writer, `sink, `error, `failed
      ensures Valid() && failed == (old(failed) || !ok) && error == (old(error) || !ok)
      ensures ok ==>
              sink == old(sink) + [Chunk(old(flusher).chunk, true)] && flusher == BatchFlush && writer == old(writer)
      ensures !ok ==> sink == old(sink)
    {
      if ok {
        BatchTaken();
      } else {
        puts, flusher, error, failed := puts - 1, BatchFlush, true, true;
        PollFlush();
      }
    }

    /** The sink is flushed; a flush that came meanwhile is done now, and a writer that waits can go on. */
    method BatchFlushDone(ok: bool)
      requires Valid() && flusher == BatchFlush
      modifies `flush, `flusher, `buf, `puts, `writer, `error, `flushed, `missed
      ensures Valid() && error == (old(error) || !ok) && failed == old(failed)
      ensures flushed == if ok then |Concat(sink)| else old(flushed)
      ensures missed == (old(missed) || (!ok && !old(flush)))
      ensures old(flush) ==> flusher == if old(buf) != [] then BatchPut(old(buf)) else BatchFlush
      ensures !old(flush) ==> flusher == NoBatch && !writer.Waiting?
      ensures old(writer).Waiting? ==> writer == Released(old(writer).chunk, old(writer).after)
    {
      error := error || !ok;
      if ok {
        flushed := |Concat(sink)|;
      } else {
        missed := missed || !flush;
      }
      PollFlush();
    }

    /** The batch is over and the writer's put starts. */
    method Resume()
      requires Valid() && writer.Released?
      modifies `writer, `puts
      ensures Valid() && writer == Putting(old(writer).chunk, old(writer).after)
    {
      writer := Putting(writer.chunk, writer.after);
      puts := puts + 1;
    }

    /** The sink takes the writer's chunk. */
    twostate predicate Took(byFlush: bool)
      reads this
    {
      old(writer).Putting? && Valid() && sink == old(sink) + [Chunk(old(writer).chunk, byFlush)]
    }

    /** The writer's chunk is taken, and was the last of its call. */
    method LastPutDone()
      requires Valid() && writer.Putting? && writer.after.Done?
      modifies `puts, `writer, `sink
      ensures Took(false) && writer.Idle? && buf == old(buf)
    {
      var c := Chunk(writer.chunk, false);
      if !failed {
        PutTaken(sink, c.data, false, [], buf, written);
      }
      sink, puts, writer := sink + [c], puts - 1, Idle;
    }

    /** The chunk of a flush is taken, and the sink is flushed. */
    method FlushPutDone()
      requires Valid() && writer.Putting? && writer.after.FlushSink?
      modifies `puts, `writer, `sink
      ensures Took(true) && writer.SinkFlushing? && buf == old(buf)
    {
      var c := Chunk(writer.chunk, true);
      if !failed {
        PutTaken(sink, c.data, true, [], buf, written);
      }
      sink, puts, writer := sink + [c], puts - 1, SinkFlushing;
    }

    /** The writer's chunk is taken, and the rest of its call is put in one piece. */
    method PutDoneRest()
      requires Valid() && writer.Putting? && writer.after.PutRest?
      modifies `flush, `puts, `writer, `sink, `missed
      ensures Took(false) && missed == old(missed) && !flush
      ensures PutsAndKeeps(old(writer).after.data, Done, old(buf))
    {
      var c, rest := Chunk(writer.chunk, false), writer.after.data;
      if !failed {
        PutTaken(sink, c.data, false, rest, buf, written);
        RestMoves(Concat(sink + [c]), rest, written);
      }
      sink, puts := sink + [c], puts - 1;
      Put(rest, Done);
    }

    /** The writer's chunk is taken, and less than a chunk of its call is left for the buffer. */
    method PutDoneTail()
      requires Valid() && writer.Putting? && writer.after.SplitRest? && |writer.after.data| < size
      modifies `flush, `buf, `puts, `writer, `sink, `missed
      ensures Took(false) && missed == old(missed) && !flush && writer.Idle? && buf == old(writer).after.data
    {
      var c, rest := Chunk(writer.chunk, false), writer.after.data;
      if !failed {
        PutTaken(sink, c.data, false, rest, buf, written);
        RestMoves(Concat(sink + [c]), rest, written);
      }
      sink, puts := sink + [c], puts - 1;
      SplitAndPut(rest);
    }

    /** The writer's chunk is taken, and the rest of its call is split further. */
    method PutDoneSplit()
      requires Valid() && writer.Putting? && writer.after.SplitRest? && |writer.after.data| >= size
      modifies `flush, `buf, `puts, `writer, `sink, `missed
      ensures Took(false) && missed == old(missed) && !flush
      ensures PutsAndKeeps(old(writer).after.data[..size], SplitRest(old(writer).after.data[size..]), old(buf))
    {
      var c, rest := Chunk(writer.chunk, false), writer.after.data;
      if !failed {
        PutTaken(sink, c.data, false, rest, buf, written);
        RestSplits(Concat(sink + [c]), rest, written, size);
      }
      sink, puts := sink + [c], puts - 1;
      SplitAndPut(rest);
    }

    /** The sink is done with the writer's chunk, and the call goes on with what is left of it. */
    method PutDone(ok: bool)
      requires Valid() && writer.Putting?
      modifies `flush, `buf, `puts, `writer, `sink, `failed, `missed
      ensures Valid() && failed == (old(failed) || !ok) && missed == old(missed) && !flush
      ensures ok ==> sink == old(sink) + [Chunk(old(writer).chunk, old(writer).after.FlushSink?)]
      ensures writer.SinkFlushing? <==> ok && old(writer).after.FlushSink?
      ensures !ok ==> sink == old(sink) && writer.Idle? && buf == old(buf)
      ensures ok ==>
                match old(writer).after
                case Done => writer.Idle? && buf == old(buf)
                case FlushSink => buf == old(buf)
                case PutRest(rest) => PutsAndKeeps(rest, Done, old(buf))
                case SplitRest(rest) => if |rest| < size then writer.Idle? && buf == rest
                                        else PutsAndKeeps(rest[..size], SplitRest(rest[size..]), old(buf))
    {
      if !ok {
        puts, writer, failed := puts - 1, Idle, true;
      } else if writer.after.Done? {
        LastPutDone();
      } else if writer.after.FlushSink? {
        FlushPutDone();
      } else if writer.after.PutRest? {
        PutDoneRest();
      } else if |writer.after.data| < size {
        PutDoneTail();
      } else {
        PutDoneSplit();
      }
    }

    /** The sink is flushed, and everything that was written with it. */
    method SinkFlushDone(ok: bool)
      requires Valid() && writer.SinkFlushing?
      modifies `writer, `flushed
      ensures Valid() && writer.Idle?
      ensures flushed == if ok then |Concat(sink)| else old(flushed)
      ensures ok && !failed ==> flushed == |written| && Concat(sink) == written
    {
      writer := Idle;
      if ok {
        flushed := |Concat(sink)|;
      }
    }

    /**
     * At rest, the sink has taken everything that was written but what is still in the buffer; it has
     * everything that was written before the last batched flush, and was flushed behind it unless that
     * flush was called off or the sink's failed.
     */
    lemma AtRest()
      requires Valid() && !failed && writer.Idle? && flusher == NoBatch
      ensures Concat(sink) == written[..|written| - |buf|] && mark <= |Concat(sink)|
      ensures missed || mark <= flushed <= |Concat(sink)|
    {
    }
  }

  /** The sink has taken all bytes but n. */
  ghost predicate TakenBut(s: OutputStream, n: nat)
    reads s
  {
    s.Valid() && !s.failed && !s.Flushing() && |Concat(s.sink)| + n == |s.written|
  }

  lemma AllCounted(s: OutputStream)
    requires s.Valid() && !s.failed && !s.Flushing()
    ensures |Concat(s.sink)| + |WriterChunk(s.writer)| + |WriterRest(s.writer)| + |s.buf| == |s.written|
    ensures s.writer.Putting? ==> |WriterChunk(s.writer)| > 0
  {
  }

  lemma AllTaken(s: OutputStream)
    requires TakenBut(s, 0)
    ensures Concat(s.sink) == s.written && s.buf == [] && !s.writer.Putting? && !s.writer.Released?
  {
    AllCounted(s);
    assert forall i :: 0 <= i < |s.written| ==> Concat(s.sink)[i] == s.written[i];
  }

  /** Only one byte is not taken yet, so it is the writer's chunk. */
  lemma LastByte(s: OutputStream, c: Chunk)
    requires TakenBut(s, 1) && s.writer.Putting? && c.data == s.writer.chunk
    ensures |Concat(s.sink + [c])| == |s.written|
  {
    AllCounted(s);
    ConcatAppend(s.sink, c);
  }

  /** A byte that is written through, in chunks of one. */
  method WriteThrough(s: OutputStream, x: Byte)
    requires TakenBut(s, 0) && s.size == 1 && s.writer.Idle?
    modifies s
    ensures TakenBut(s, 0) && s.writer.Idle? && s.flusher == old(s.flusher) && !s.flush
    ensures s.written == old(s.written) + [x]
    ensures s.mark == old(s.mark) && s.flushed == old(s.flushed) && s.error == old(s.error)
  {
    AllTaken(s);
    s.Write([x]);
    PutLastByte(s);
  }

  method PutLastByte(s: OutputStream)
    requires TakenBut(s, 1) && s.writer.Putting? && !s.writer.after.FlushSink?
    modifies s`flush, s`buf, s`puts, s`writer, s`sink, s`failed, s`missed
    ensures TakenBut(s, 0) && s.writer.Idle? && !s.flush
  {
    LastByte(s, Chunk(s.writer.chunk, false));
    s.PutDone(true);
    AllTaken(s);
  }

  /** A write that puts calls a batched flush off: the sink is not flushed, though the flush succeeded. */
  method FlushCalledOff() returns (s: OutputStream)
    ensures fresh(s) && s.Valid() && !s.failed && s.writer.Idle? && s.flusher == NoBatch && !s.error
    ensures Concat(s.sink) == [7, 8] && s.mark == 1 && s.flushed == 0
  {
    s := new OutputStream(1, false, true);
    WriteThrough(s, 7);
    var failure := s.Flush();
    WriteThrough(s, 8);
    AllTaken(s);
    s.PollFlush();
  }

  /** An unbatched flush with nothing in the buffer does nothing, though the sink has taken bytes. */
  method FlushOfEmptyBuffer() returns (s: OutputStream)
    ensures fresh(s) && s.Valid() && !s.failed && s.writer.Idle?
    ensures Concat(s.sink) == [7] && s.flushed == 0
  {
    s := new OutputStream(1, false, false);
    WriteThrough(s, 7);
    AllTaken(s);
    var failure := s.Flush();
  }
}
