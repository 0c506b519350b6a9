/**
 * Bulk reads (file.hh read_state, core/reactor.cc dma_read_bulk and read_maybe_eof): reads that the
 * kernel may cut short are continued until the range or the file ends. The file does not change
 * while it is read.
 */
module DmaReads {
  import opened Align
  import opened Options
  import opened Sequences

  /** The bytes of the file from lo up to hi or its end. */
  function Slice(file: seq<Byte>, lo: nat, hi: nat): (s: seq<Byte>)
    ensures |s| == if lo < |file| && lo < hi then (if hi < |file| then hi else |file|) - lo else 0
    ensures forall i :: 0 <= i < |s| ==> s[i] == file[lo + i]
  {
    if lo < |file| && lo < hi then file[lo..if hi < |file| then hi else |file|] else []
  }

  lemma SliceJoin(file: seq<Byte>, lo: nat, mid: nat, hi: nat)
    requires lo <= mid <= hi
    ensures Slice(file, lo, mid) + Slice(file, mid, hi) == Slice(file, lo, hi)
  {
    var a, b, c := Slice(file, lo, mid), Slice(file, mid, hi), Slice(file, lo, hi);
    assert |a| + |b| == |c|;
    forall i | 0 <= i < |c| ensures (a + b)[i] == c[i] {
      if i >= |a| { assert (a + b)[i] == b[i - |a|]; }
    }
  }

  /**
   * What an aligned read of size bytes at pos may return: all there is up to the end of the file, or
   * a positive number of bytes that stops at a block boundary.
   */
  predicate LegalCount(file: seq<Byte>, align: nat, pos: nat, size: nat, n: nat)
    requires align > 0
  {
    var all := |Slice(file, pos, pos + size)|;
    n <= all && (n < all ==> n > 0 && (pos + n) % align == 0)
  }

  /** A legal read of whole blocks stops at a block boundary or at the end of the file. */
  lemma WhereReadsStop(file: seq<Byte>, align: nat, pos: nat, size: nat, n: nat)
    requires align > 0 && pos % align == 0 && size % align == 0 && LegalCount(file, align, pos, size, n)
    ensures (pos + n) % align == 0 || pos + n == |file|
  {
    var all := |Slice(file, pos, pos + size)|;
    if n == all {
      if n == size {
        SumOfMultiples(pos, size, align);
      } else if n > 0 {
        assert pos + n == |file|;
      } else {
        assert pos + n == pos;
      }
    }
  }

  /** The kernel: None is EINVAL, for a position that is not aligned. */
  method ReadDma(file: seq<Byte>, align: nat, pos: nat, size: nat) returns (data: Option<seq<Byte>>)
    requires align > 0
    ensures data.None? <==> pos % align != 0
    ensures data.Some? ==>
            LegalCount(file, align, pos, size, |data.value|) && data.value == Slice(file, pos, pos + |data.value|)
  {
    if pos % align != 0 { return None; }
    var all := |Slice(file, pos, pos + size)|;
    assert LegalCount(file, align, pos, size, all);
    var n: nat :| n <= all && LegalCount(file, align, pos, size, n);
    data := Some(Slice(file, pos, pos + n));
  }

  /** One more read at pos; past an end that is not aligned, EINVAL stands for the end of the file. */
  method ReadMaybeEof(file: seq<Byte>, align: nat, pos: nat, len: nat) returns (data: seq<Byte>)
    requires align > 0
    ensures pos % align != 0 ==> data == []
    ensures pos % align == 0 ==>
            LegalCount(file, align, pos, AlignUp(len, align), |data|) && data == Slice(file, pos, pos + |data|)
  {
    var r := ReadDma(file, align, pos, AlignUp(len, align));
    data := if r.Some? then r.value else [];
  }

  /** The state of a bulk read; buf[first..last] is what is left of the buffer. */
  class ReadState {
    const buf: array<Byte>
    var first: nat
    var last: nat
    var pos: nat
    var eof: bool
    const offset: nat
    const toRead: nat
    const front: nat

    constructor (offset: nat, front: nat, toRead: nat, align: nat)
      requires align > 0
      ensures fresh(buf) && buf.Length == AlignUp(toRead, align) && first == 0 && last == buf.Length && pos == 0 && !eof
      ensures this.offset == offset && this.front == front && this.toRead == toRead
    {
      buf := new Byte[AlignUp(toRead, align)];
      first, last, pos, eof := 0, AlignUp(toRead, align), 0, false;
      this.offset, this.front, this.toRead := offset, front, toRead;
    }

    predicate Done()
      reads this
    {
      eof || pos >= toRead
    }

    /** Copies what fits behind what is there. */
    method AppendNewData(data: seq<Byte>)
      requires pos <= buf.Length
      modifies `pos, buf
      ensures pos == old(pos) + if |data| <= buf.Length - old(pos) then |data| else buf.Length - old(pos)
      ensures buf[..pos] == old(buf[..pos]) + data[..pos - old(pos)]
    {
      var toCopy := if |data| <= buf.Length - pos then |data| else buf.Length - pos;
      forall i | 0 <= i < toCopy {
        buf[pos + i] := data[i];
      }
      pos := pos + toCopy;
      assert buf[..old(pos)] == old(buf[..pos]);
      assert buf[old(pos)..pos] == data[..toCopy];
    }

    /** The same, when all of it fits. */
    method AppendAll(data: seq<Byte>)
      requires pos + |data| <= buf.Length
      modifies `pos, buf
      ensures pos == old(pos) + |data| && buf[..pos] == old(buf[..pos]) + data
    {
      assert data[..|data|] == data;
      AppendNewData(data);
    }

    /** The bytes behind front, when there are any. */
    method TrimBufBeforeRet() returns (data: seq<Byte>)
      requires front <= buf.Length && pos <= buf.Length && first == 0
      modifies `first, `last
      ensures data == if pos > front then buf[front..pos] else []
    {
      if pos > front {
        last := pos;
        first := first + front;
      } else {
        last := 0;
      }
      data := if first <= last then buf[first..last] else [];
    }
  }

  /** What was read so far is the file from offset on, and ends at a block boundary or with the file. */
  ghost predicate GotTo(file: seq<Byte>, align: nat, offset: nat, read: seq<Byte>, eof: bool)
    requires align > 0
  {
    && offset % align == 0
    && read == Slice(file, offset, offset + |read|)
    && ((offset + |read|) % align == 0 || offset + |read| == |file|)
    && (eof ==> offset + |read| >= |file|)
  }

  /** The read so far is buf[..pos]. */
  ghost predicate Progress(file: seq<Byte>, align: nat, rs: ReadState)
    requires align > 0
    reads rs, rs.buf
  {
    && rs.pos <= rs.buf.Length == AlignUp(rs.toRead, align)
    && GotTo(file, align, rs.offset, rs.buf[..rs.pos], rs.eof)
  }

  lemma FirstRead(file: seq<Byte>, align: nat, rs: ReadState, data: seq<Byte>)
    requires align > 0 && rs.offset % align == 0 && rs.buf.Length == AlignUp(rs.toRead, align) && !rs.eof
    requires LegalCount(file, align, rs.offset, rs.buf.Length, |data|)
             && data == Slice(file, rs.offset, rs.offset + |data|)
    requires rs.pos == |data| && rs.buf[..rs.pos] == data
    ensures Progress(file, align, rs)
  {
    WhereReadsStop(file, align, rs.offset, rs.buf.Length, |data|);
  }

  /** A further read goes on where the last one stopped, and an empty one means the end. */
  lemma NextRead(file: seq<Byte>, align: nat, offset: nat, toRead: nat, pos: nat, data: seq<Byte>)
    requires align > 0 && offset % align == 0 && pos < toRead
    requires (offset + pos) % align == 0 || offset + pos == |file|
    requires (offset + pos) % align != 0 ==> data == []
    requires (offset + pos) % align == 0 ==>
               LegalCount(file, align, offset + pos, AlignUp(toRead - pos, align), |data|)
               && data == Slice(file, offset + pos, offset + pos + |data|)
    ensures pos + |data| <= AlignUp(toRead, align)
    ensures data == [] ==> offset + pos >= |file|
    ensures Slice(file, offset, offset + pos) + data == Slice(file, offset, offset + pos + |data|)
    ensures (offset + pos + |data|) % align == 0 || offset + pos + |data| == |file|
  {
    if (offset + pos) % align == 0 {
      DifferenceOfMultiples(offset + pos, offset, align);
      AlignUpShift(toRead - pos, align, pos);
      SliceJoin(file, offset, offset + pos, offset + pos + |data|);
      WhereReadsStop(file, align, offset + pos, AlignUp(toRead - pos, align), |data|);
    } else {
      assert Slice(file, offset, offset + pos) + data == Slice(file, offset, offset + pos);
    }
  }

  /** The first read goes directly into the buffer. */
  method ReadFirst(file: seq<Byte>, align: nat, rs: ReadState)
    requires align > 0 && rs.offset % align == 0 && rs.buf.Length == AlignUp(rs.toRead, align) && rs.pos == 0 && !rs.eof
    modifies rs`pos, rs.buf
    ensures Progress(file, align, rs)
  {
    var data := ReadDma(file, align, rs.offset, rs.buf.Length);
    assert |data.value| <= rs.buf.Length;
    rs.AppendNewData(data.value);
    assert rs.buf[..rs.pos] == data.value;
    FirstRead(file, align, rs, data.value);
  }

  /** A further read gets further, or to the end of the file. */
  lemma GotFurther(file: seq<Byte>, align: nat, offset: nat, toRead: nat, read: seq<Byte>, data: seq<Byte>)
    requires align > 0 && GotTo(file, align, offset, read, false) && |read| < toRead
    requires (offset + |read|) % align != 0 ==> data == []
    requires (offset + |read|) % align == 0 ==>
               LegalCount(file, align, offset + |read|, AlignUp(toRead - |read|, align), |data|)
               && data == Slice(file, offset + |read|, offset + |read| + |data|)
    ensures |read| + |data| <= AlignUp(toRead, align)
    ensures GotTo(file, align, offset, read + data, false) && (data == [] ==> GotTo(file, align, offset, read, true))
  {
    NextRead(file, align, offset, toRead, |read|, data);
    assert |read + data| == |read| + |data|;
  }

  /** A further read is copied behind what is there; an empty one is the end of the file. */
  method ReadOn(file: seq<Byte>, align: nat, rs: ReadState)
    requires align > 0 && Progress(file, align, rs) && !rs.Done()
    modifies rs`pos, rs`eof, rs.buf
    ensures Progress(file, align, rs) && (rs.eof || (rs.pos > old(rs.pos) && !rs.eof))
  {
    var next := ReadMaybeEof(file, align, rs.offset + rs.pos, rs.toRead - rs.pos);
    GotFurther(file, align, rs.offset, rs.toRead, rs.buf[..rs.pos], next);
    if next != [] {
      rs.AppendAll(next);
    } else {
      rs.eof := true;
    }
  }

  lemma BulkEnd(align: nat, offset: nat, rangeSize: nat)
    requires align > 0
    ensures var front := offset % align;
            offset + rangeSize <= offset - front + AlignUp(rangeSize + front, align)
  {
  }

  /** Cutting the bytes before front off what was read leaves the file from offset on. */
  lemma BehindFront(file: seq<Byte>, read: seq<Byte>, start: nat, front: nat, pos: nat, end: nat)
    requires read == Slice(file, start, start + pos) && |read| == pos
    requires end == start + pos || (start + pos >= |file| && start + pos <= end)
    ensures (if pos > front then read[front..] else []) == Slice(file, start + front, end)
  {
  }

  /** What the finished read returns: the bytes behind front, up to its end or the end of the file. */
  method Finish(file: seq<Byte>, align: nat, rs: ReadState, rangeSize: nat) returns (data: seq<Byte>, ghost end: nat)
    requires align > 0 && Progress(file, align, rs) && rs.first == 0 && rs.Done()
    requires rs.toRead == rangeSize + rs.front && rs.front <= rs.buf.Length
    modifies rs`first, rs`last
    ensures data == Slice(file, rs.offset + rs.front, end)
    ensures rs.offset + rs.toRead <= end && (end <= rs.offset + rs.buf.Length || end == rs.offset + rs.toRead)
  {
    ghost var last := if rs.pos > rs.toRead then rs.pos else rs.toRead;
    end := rs.offset + last;
    ghost var read := rs.buf[..rs.pos];
    BehindFront(file, read, rs.offset, rs.front, rs.pos, end);
    data := rs.TrimBufBeforeRet();
    assert rs.pos > rs.front ==> data == read[rs.front..];
  }

  /**
   * dma_read_bulk: the file from offset up to end or its own end, where end covers the range and goes
   * beyond it by less than a block, whatever short reads the kernel returns.
   */
  method DmaReadBulk(file: seq<Byte>, align: nat, offset: nat, rangeSize: nat) returns (data: seq<Byte>, ghost end: nat)
    requires align > 0
    ensures data == Slice(file, offset, offset + |data|) && (|data| >= rangeSize || offset + |data| >= |file|)
    ensures |data| <= AlignUp(rangeSize + offset % align, align) - offset % align
    ensures data == Slice(file, offset, end)
    ensures offset + rangeSize <= end <= offset - offset % align + AlignUp(rangeSize + offset % align, align)
  {
    var front, start := offset % align, AlignDown(offset, align);
    BulkEnd(align, offset, rangeSize);
    var rs := new ReadState(start, front, rangeSize + front, align);
    ReadFirst(file, align, rs);
    while !rs.Done()
      invariant Progress(file, align, rs) && rs.first == 0
      modifies rs, rs.buf
      decreases !rs.eof, rs.toRead - rs.pos
    {
      ReadOn(file, align, rs);
    }
    data, end := Finish(file, align, rs, rangeSize);
  }
}
