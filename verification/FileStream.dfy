/**
 * Reading a file as a stream of buffers (core/fstream.cc): read-ahead in aligned reads whose results
 * are trimmed, skipping, and buffer sizes that adapt to how much of what was read is used.
 */
module FileStreams {
  import opened Align
  import opened Bits
  import opened DmaReads
  import opened Sequences

  const TWO_TO_THE_64: nat := 0x1_0000_0000_0000_0000
  const UNUSED_NUM := 25
  const UNUSED_DEN := 100

  /** A temporary_buffer, or one that was trimmed by more than it held: its size wrapped around. */
  datatype Buffer = Bytes(data: seq<Byte>) | Wrapped(size: nat)

  /** temporary_buffer::trim_front, which does not check n. */
  function TrimFront(b: Buffer, n: nat): Buffer {
    match b
    case Bytes(d) => if n <= |d| then Bytes(d[n..]) else Wrapped((|d| - n) % TWO_TO_THE_64)
    case Wrapped(size) => Wrapped((size - n) % TWO_TO_THE_64)
  }

  /** A read that was issued for size bytes at pos, with the buffer it will deliver. */
  datatype IssuedRead = IssuedRead(pos: nat, size: nat, buf: Buffer)

  /** What a completed read of the file from start delivers: the part from pos on, and not beyond limit. */
  method TrimmedRead(start: nat, pos: nat, limit: nat, read: seq<Byte>, file: seq<Byte>, ghost end: nat)
        returns (data: seq<Byte>)
    requires start <= pos <= limit && read == Slice(file, start, end)
    ensures data == Slice(file, pos, if end < limit then end else limit)
  {
    data := read;
    var realEnd := start + |data|;
    if realEnd <= pos { return []; }
    if realEnd > limit {
      data := data[..limit - start];
    }
    if start < pos {
      data := data[pos - start..];
    }
  }

  /** The first byte behind the read that is issued at pos. */
  function EndOfRead(pos: nat, remain: nat, bufferSize: nat, align: nat): (end: nat)
    requires align > 0 && bufferSize > 0 && remain > 0
    ensures pos < end <= pos + remain
  {
    var end := AlignUp(AlignDown(pos, align) + bufferSize, align);
    PastTheBlock(pos, bufferSize, align);
    if end < pos + remain then end else pos + remain
  }

  lemma PastTheBlock(pos: nat, bufferSize: nat, align: nat)
    requires align > 0 && bufferSize > 0
    ensures AlignUp(AlignDown(pos, align) + bufferSize, align) > pos
  {
    AlignUpPositive(bufferSize, align);
    AlignUpShift(bufferSize, align, AlignDown(pos, align));
  }

  /** One read of the stream: whole blocks from below pos, trimmed to what was asked for. */
  method ReadBlocks(file: seq<Byte>, align: nat, pos: nat, remain: nat, bufferSize: nat)
        returns (data: seq<Byte>, end: nat)
    requires align > 0 && bufferSize > 0 && remain > 0
    ensures end == EndOfRead(pos, remain, bufferSize, align) && data == Slice(file, pos, end)
  {
    end := EndOfRead(pos, remain, bufferSize, align);
    var start := AlignDown(pos, align);
    var read, readEnd := DmaReadBulk(file, align, start, end - start);
    data := TrimmedRead(start, pos, pos + remain, read, file, readEnd);
    ReadEndsRight(pos, remain, bufferSize, align, readEnd);
  }

  /** The blocks that are read end where the read ends, or where the stream does. */
  lemma ReadEndsRight(pos: nat, remain: nat, bufferSize: nat, align: nat, readEnd: nat)
    requires align > 0 && bufferSize > 0 && remain > 0
    requires var start, end := AlignDown(pos, align), EndOfRead(pos, remain, bufferSize, align);
             end <= readEnd <= start - start % align + AlignUp(end - start + start % align, align)
    ensures (if readEnd < pos + remain then readEnd else pos + remain) == EndOfRead(pos, remain, bufferSize, align)
  {
    var start, end := AlignDown(pos, align), EndOfRead(pos, remain, bufferSize, align);
    assert start % align == 0;
    if end < pos + remain {
      DifferenceOfMultiples(end, start, align);
      AlignUpLeast(end - start, align, end - start);
    }
  }

  function Min(a: nat, b: nat): nat { if a < b then a else b }
  function Max(a: int, b: int): int { if a < b then b else a }

  predicate BelowTarget(unused: int, total: int) {
    unused * UNUSED_DEN < total * UNUSED_NUM
  }

  const WINDOW_SIZE: nat := 4 * 1024 * 1024

  /** What was read in the current and in the previous window, and what of it was dropped. */
  datatype Windows = Windows(currentTotal: nat, currentUnused: nat, previousTotal: nat, previousUnused: nat)

  /** The windows when more bytes are counted. */
  function Counted(w: Windows, unused: nat, total: nat): Windows {
    if w.currentTotal + total < WINDOW_SIZE
    then w.(currentTotal := w.currentTotal + total, currentUnused := w.currentUnused + unused)
    else Windows(0, 0, w.currentTotal + total, w.currentUnused + unused)
  }

  /** What was read and what of it was dropped lately; streams may share it. */
  class History {
    var currentTotal: nat
    var currentUnused: nat
    var previousTotal: nat
    var previousUnused: nat
    var readAhead: nat

    constructor ()
      ensures Total() == 0 && Unused() == 0 && readAhead == 1
    {
      currentTotal, currentUnused, previousTotal, previousUnused, readAhead := 0, 0, 0, 0, 1;
    }

    function Total(): nat
      reads this
    {
      currentTotal + previousTotal
    }

    function Unused(): nat
      reads this
    {
      currentUnused + previousUnused
    }

    ghost function State(): Windows
      reads this
    {
      Windows(currentTotal, currentUnused, previousTotal, previousUnused)
    }

    /** Counts bytes; a full window becomes the previous one. */
    method Update(unused: nat, total: nat)
      modifies this
      ensures readAhead == old(readAhead) && State() == Counted(old(State()), unused, total)
      ensures if old(currentTotal) + total < WINDOW_SIZE
              then
                && Total() == old(Total()) + total && Unused() == old(Unused()) + unused
                && currentTotal == old(currentTotal) + total
              else
                && Total() == previousTotal == old(currentTotal) + total
                && Unused() == previousUnused == old(currentUnused) + unused
                && currentTotal == 0
    {
      currentTotal := currentTotal + total;
      currentUnused := currentUnused + unused;
      if currentTotal >= WINDOW_SIZE {
        previousTotal, previousUnused := currentTotal, currentUnused;
        currentTotal, currentUnused := 0, 0;
      }
    }
  }

  /** buffer_size / 4, at least 8192 unless the buffers are smaller. */
  function MinimalBufferSize(bufferSize: nat): (r: nat)
    ensures r <= bufferSize && (bufferSize > 0 ==> r > 0)
    ensures (r == bufferSize || r >= 8192) && bufferSize / 4 <= r && (r <= 8192 || r <= bufferSize / 4)
  {
    Min(Max(bufferSize / 4, 8192), bufferSize)
  }

  lemma TargetIsSafe(total: nat, unused: nat, size: nat)
    ensures size <= (UNUSED_NUM * total - UNUSED_DEN * unused) / (UNUSED_DEN - UNUSED_NUM) ==>
              (unused + size) * UNUSED_DEN <= (total + size) * UNUSED_NUM
  {
  }

  /** A power of two not above the target, but not less than the minimum. */
  function ShrunkBufferSize(total: nat, unused: nat, bufferSize: nat): (r: nat)
    requires bufferSize > 0
    ensures MinimalBufferSize(bufferSize) <= r && r > 0
  {
    var target := (UNUSED_NUM * total - UNUSED_DEN * unused) / (UNUSED_DEN - UNUSED_NUM);
    var size := Max(target, MinimalBufferSize(bufferSize));
    Max(Pow2(Log2Floor(size)), MinimalBufferSize(bufferSize))
  }

  /** Unless it is the minimum, dropping a whole buffer of the new size keeps the stream at the target. */
  lemma ShrunkIsSafe(total: nat, unused: nat, bufferSize: nat)
    requires bufferSize > 0
    ensures var r := ShrunkBufferSize(total, unused, bufferSize);
            r == MinimalBufferSize(bufferSize) || (unused + r) * UNUSED_DEN <= (total + r) * UNUSED_NUM
  {
    var target := (UNUSED_NUM * total - UNUSED_DEN * unused) / (UNUSED_DEN - UNUSED_NUM);
    var size: nat := Max(target, MinimalBufferSize(bufferSize));
    BitLengthBounds(size);
    TargetIsSafe(total, unused, Pow2(Log2Floor(size)));
  }

  lemma TargetIsLargest(total: nat, unused: nat, size: nat)
    requires (unused + size) * UNUSED_DEN <= (total + size) * UNUSED_NUM
    ensures size <= (UNUSED_NUM * total - UNUSED_DEN * unused) / (UNUSED_DEN - UNUSED_NUM)
  {
  }

  /** And no power of two is larger of which that holds. */
  lemma ShrunkIsLargest(total: nat, unused: nat, bufferSize: nat, k: nat)
    requires bufferSize > 0 && (unused + Pow2(k)) * UNUSED_DEN <= (total + Pow2(k)) * UNUSED_NUM
    ensures Pow2(k) <= ShrunkBufferSize(total, unused, bufferSize)
    ensures ShrunkBufferSize(total, unused, bufferSize) == MinimalBufferSize(bufferSize)
            || exists j :: ShrunkBufferSize(total, unused, bufferSize) == Pow2(j)
  {
    TargetIsLargest(total, unused, Pow2(k));
    var target := (UNUSED_NUM * total - UNUSED_DEN * unused) / (UNUSED_DEN - UNUSED_NUM);
    var size: nat := Max(target, MinimalBufferSize(bufferSize));
    BitLengthBounds(size);
    if k > Log2Floor(size) {
      Pow2Mono(Log2Floor(size) + 1, k);
    } else {
      Pow2Mono(k, Log2Floor(size));
    }
  }

  /** The next byte of a stream with these reads outstanding, when the next read goes to pos. */
  function NextByte(queue: seq<IssuedRead>, pos: nat): nat {
    if queue == [] then pos else queue[0].pos
  }

  /**
   * Outstanding read i delivers its part of the file; only the first one can be damaged, and only
   * behind the end of the file.
   */
  predicate ReadOk(file: seq<Byte>, queue: seq<IssuedRead>, i: nat, pos: nat, remain: nat)
    requires i < |queue|
  {
    var r := queue[i];
    && (r.size == 0 ==> r.pos == pos && remain == 0)
    && r.pos + r.size == NextByte(queue[i + 1..], pos)
    && (r.buf == Bytes(Slice(file, r.pos, r.pos + r.size)) || (r.buf.Wrapped? && i == 0 && r.pos > |file|))
  }

  predicate ReadsOk(file: seq<Byte>, queue: seq<IssuedRead>, pos: nat, remain: nat) {
    forall i: nat {:trigger ReadOk(file, queue, i, pos, remain)} :: i < |queue| ==> ReadOk(file, queue, i, pos, remain)
  }

  lemma PopRead(file: seq<Byte>, queue: seq<IssuedRead>, pos: nat, remain: nat)
    requires queue != [] && ReadsOk(file, queue, pos, remain)
    ensures ReadsOk(file, queue[1..], pos, remain) && NextByte(queue[1..], pos) == queue[0].pos + queue[0].size
    ensures queue[1..] != [] ==> queue[1].buf.Bytes?
  {
    assert ReadOk(file, queue, 0, pos, remain);
    assert |queue| > 1 ==> ReadOk(file, queue, 1, pos, remain);
    forall i: nat | i < |queue[1..]| ensures ReadOk(file, queue[1..], i, pos, remain) {
      assert ReadOk(file, queue, i + 1, pos, remain);
      assert queue[1..][i + 1..] == queue[i + 2..];
    }
  }

  lemma PushRead(file: seq<Byte>, queue: seq<IssuedRead>, pos: nat, remain: nat, end: nat, r: IssuedRead)
    requires if remain == 0 then end == pos else pos < end <= pos + remain
    requires ReadsOk(file, queue, pos, remain) && r == IssuedRead(pos, end - pos, Bytes(Slice(file, pos, end)))
    ensures ReadsOk(file, queue + [r], end, remain - (end - pos)) && NextByte(queue + [r], end) == NextByte(queue, pos)
  {
    var all, left := queue + [r], remain - (end - pos);
    forall i: nat | i < |all| ensures ReadOk(file, all, i, end, left) {
      if i < |queue| {
        assert ReadOk(file, queue, i, pos, remain);
        assert all[i + 1..] == queue[i + 1..] + [r];
      } else {
        assert all[i + 1..] == [];
      }
    }
  }

  lemma {:induction false} ReadsBelowPos(file: seq<Byte>, queue: seq<IssuedRead>, pos: nat, remain: nat)
    requires ReadsOk(file, queue, pos, remain)
    ensures NextByte(queue, pos) <= pos
    ensures queue != [] ==> queue[0].pos + queue[0].size <= pos
  {
    if queue != [] {
      PopRead(file, queue, pos, remain);
      ReadsBelowPos(file, queue[1..], pos, remain);
    }
  }

  /** The first outstanding read delivers the next part of the range, and something unless nothing is left. */
  lemma FirstReadIsNext(file: seq<Byte>, queue: seq<IssuedRead>, pos: nat, remain: nat)
    requires queue != [] && ReadsOk(file, queue, pos, remain)
    ensures var r, end := queue[0], pos + remain;
            && r.pos + r.size <= end
            && Slice(file, r.pos, r.pos + r.size)
              + Slice(file, NextByte(queue[1..], pos), end) == Slice(file, r.pos, end)
            && (Slice(file, r.pos, r.pos + r.size) == [] ==> Slice(file, r.pos, end) == [])
  {
    ReadsBelowPos(file, queue, pos, remain);
    PopRead(file, queue, pos, remain);
    assert ReadOk(file, queue, 0, pos, remain);
    SliceJoin(file, queue[0].pos, queue[0].pos + queue[0].size, pos + remain);
  }

  lemma {:induction false} ReadsAscend(file: seq<Byte>, queue: seq<IssuedRead>, pos: nat, remain: nat)
    requires ReadsOk(file, queue, pos, remain)
    ensures forall i :: 0 <= i < |queue| ==> queue[i].pos >= NextByte(queue, pos)
  {
    if queue != [] {
      PopRead(file, queue, pos, remain);
      ReadsAscend(file, queue[1..], pos, remain);
      assert forall i :: 1 <= i < |queue| ==> queue[i] == queue[1..][i - 1];
    }
  }

  /** Does position p lie strictly inside an outstanding read? */
  predicate Inside(queue: seq<IssuedRead>, p: nat) {
    exists i :: 0 <= i < |queue| && queue[i].pos < p < queue[i].pos + queue[i].size
  }

  /** Where a position lies, seen from the first read. */
  lemma InsideFacts(file: seq<Byte>, queue: seq<IssuedRead>, pos: nat, remain: nat, p: nat)
    requires ReadsOk(file, queue, pos, remain)
    ensures p <= NextByte(queue, pos) ==> !Inside(queue, p)
    ensures queue != [] && p >= queue[0].pos + queue[0].size ==> (Inside(queue, p) <==> Inside(queue[1..], p))
    ensures queue != [] && queue[0].pos < p < queue[0].pos + queue[0].size ==> Inside(queue, p)
  {
    ReadsAscend(file, queue, pos, remain);
    if queue != [] && p >= queue[0].pos + queue[0].size {
      if Inside(queue, p) {
        var i :| 0 <= i < |queue| && queue[i].pos < p < queue[i].pos + queue[i].size;
        assert queue[1..][i - 1] == queue[i];
      }
      if Inside(queue[1..], p) {
        var i :| 0 <= i < |queue[1..]| && queue[1..][i].pos < p < queue[1..][i].pos + queue[1..][i].size;
        assert queue[i + 1] == queue[1..][i];
      }
    }
  }

  /** The first read can be any that ends where it ended. */
  lemma ReplaceFirstRead(file: seq<Byte>, queue: seq<IssuedRead>, r: IssuedRead, pos: nat, remain: nat)
    requires queue != [] && ReadsOk(file, queue, pos, remain) && r.size > 0
             && r.pos + r.size == queue[0].pos + queue[0].size
    requires r.buf == Bytes(Slice(file, r.pos, r.pos + r.size)) || (r.buf.Wrapped? && r.pos > |file|)
    ensures ReadsOk(file, [r] + queue[1..], pos, remain)
  {
    var trimmed := [r] + queue[1..];
    forall i: nat | i < |trimmed|
      ensures ReadOk(file, trimmed, i, pos, remain)
    {
      assert ReadOk(file, queue, i, pos, remain);
      assert trimmed[i + 1..] == queue[i + 1..];
    }
  }

  lemma TrimmedBuffer(file: seq<Byte>, r: IssuedRead, n: nat)
    requires 0 < n < r.size
             && (r.buf == Bytes(Slice(file, r.pos, r.pos + r.size)) || (r.buf.Wrapped? && r.pos > |file|))
    ensures var buf := TrimFront(r.buf, n);
            if r.buf.Bytes? && r.pos + n <= |file| then buf == Bytes(Slice(file, r.pos + n, r.pos + r.size))
            else buf.Wrapped? && r.pos + n > |file|
  {
    if r.buf.Bytes? && r.pos + n <= |file| {
      assert Slice(file, r.pos, r.pos + r.size)[n..] == Slice(file, r.pos + n, r.pos + r.size);
    }
  }

  /** A skip inside the first read moves its start; the buffer stays right exactly if that is not behind the file. */
  lemma TrimFirstRead(file: seq<Byte>, queue: seq<IssuedRead>, pos: nat, remain: nat, n: nat)
    requires queue != [] && ReadsOk(file, queue, pos, remain) && 0 < n < queue[0].size
    ensures var r := queue[0];
            && ReadsOk(file, [IssuedRead(r.pos + n, r.size - n, TrimFront(r.buf, n))] + queue[1..], pos, remain)
            && (TrimFront(r.buf, n).Bytes? <==> r.buf.Bytes? && r.pos + n <= |file|)
  {
    assert ReadOk(file, queue, 0, pos, remain);
    TrimmedBuffer(file, queue[0], n);
    var r := IssuedRead(queue[0].pos + n, queue[0].size - n, TrimFront(queue[0].buf, n));
    ReplaceFirstRead(file, queue, r, pos, remain);
  }

  /** Without its first read the stream is right, and goes on behind what that read delivers. */
  lemma Popped(file: seq<Byte>, queue: seq<IssuedRead>, pos: nat, remain: nat)
    requires queue != [] && ReadsOk(file, queue, pos, remain)
    ensures ReadsOk(file, queue[1..], pos, remain) && (queue[1..] != [] ==> queue[1].buf.Bytes?)
    ensures var buf, rest := queue[0].buf, Slice(file, NextByte(queue, pos), pos + remain);
            buf.Bytes? ==>
              buf.data + Slice(file, NextByte(queue[1..], pos), pos + remain) == rest && (buf.data == [] ==> rest == [])
  {
    assert ReadOk(file, queue, 0, pos, remain);
    FirstReadIsNext(file, queue, pos, remain);
    PopRead(file, queue, pos, remain);
  }

  /** The position behind the reads that were issued, what of the range is behind it, and the reads. */
  datatype Reads = Reads(pos: nat, remain: nat, queue: seq<IssuedRead>)

  /** One more read; an empty one when nothing is left of the range. */
  function OneRead(file: seq<Byte>, align: nat, size: nat, s: Reads): Reads
    requires align > 0 && size > 0
  {
    if s.remain == 0 then s.(queue := s.queue + [IssuedRead(s.pos, 0, Bytes([]))])
    else
      var end := EndOfRead(s.pos, s.remain, size, align);
      Reads(end, s.remain - (end - s.pos), s.queue + [IssuedRead(s.pos, end - s.pos, Bytes(Slice(file, s.pos, end)))])
  }

  /**
   * A read ends with the range, or with the first block that makes it as long as a buffer, counted from
   * the start of its own block.
   */
  lemma OneReadEnds(file: seq<Byte>, align: nat, size: nat, s: Reads, e: nat)
    requires align > 0 && size > 0 && s.remain > 0 && e % align == 0 && AlignDown(s.pos, align) + size <= e
    ensures var t := OneRead(file, align, size, s);
            && t.queue == s.queue + [IssuedRead(s.pos, t.pos - s.pos, Bytes(Slice(file, s.pos, t.pos)))]
            && t.pos <= e
            && (t.remain == 0 || (t.pos % align == 0 && AlignDown(s.pos, align) + size <= t.pos))
  {
    AlignUpLeast(AlignDown(s.pos, align) + size, align, e);
  }

  /** Reads until ra are outstanding, or the range is used up and at least least are. */
  function ReadsAhead(file: seq<Byte>, align: nat, size: nat, s: Reads, ra: nat, least: nat): Reads
    requires align > 0 && size > 0
    decreases ra - |s.queue|
  {
    if |s.queue| >= ra || (s.remain == 0 && |s.queue| >= least) then s
    else ReadsAhead(file, align, size, OneRead(file, align, size, s), ra, least)
  }

  /** There is read-ahead unless the range is used up; what was outstanding stays in front. */
  lemma {:induction false} ReadsAheadFacts(file: seq<Byte>, align: nat, size: nat, s: Reads, ra: nat, least: nat)
    requires align > 0 && size > 0 && least <= ra
    ensures var t := ReadsAhead(file, align, size, s, ra, least);
            && s.queue <= t.queue && |t.queue| >= least
            && (|t.queue| >= ra || t.remain == 0) && t.pos + t.remain == s.pos + s.remain
            && (|t.queue| <= ra || t.queue == s.queue)
            && (s.remain == 0 ==> |t.queue| <= least || t.queue == s.queue)
            && (forall i :: |s.queue| <= i < |t.queue| && t.queue[i].size == 0 ==> i < least)
    decreases ra - |s.queue|
  {
    if |s.queue| < ra && (s.remain > 0 || |s.queue| < least) {
      ReadsAheadFacts(file, align, size, OneRead(file, align, size, s), ra, least);
    }
  }

  ghost predicate AllOk(file: seq<Byte>, s: Reads) {
    ReadsOk(file, s.queue, s.pos, s.remain)
  }

  /** A stream that is right stays right, and delivers the same, with more reads outstanding. */
  ghost predicate SameStream(file: seq<Byte>, s: Reads, t: Reads) {
    && AllOk(file, t) && NextByte(t.queue, t.pos) == NextByte(s.queue, s.pos) && t.pos + t.remain == s.pos + s.remain
    && ((t.queue != [] && t.queue[0].buf.Wrapped?) <==> (s.queue != [] && s.queue[0].buf.Wrapped?))
  }

  lemma OneReadIsRight(file: seq<Byte>, align: nat, size: nat, s: Reads)
    requires align > 0 && size > 0 && AllOk(file, s)
    ensures SameStream(file, s, OneRead(file, align, size, s))
  {
    var t := OneRead(file, align, size, s);
    PushRead(file, s.queue, s.pos, s.remain, t.pos, t.queue[|s.queue|]);
  }

  lemma {:induction false} ReadsAheadAreRight(file: seq<Byte>, align: nat, size: nat, s: Reads, ra: nat, least: nat)
    requires align > 0 && size > 0 && AllOk(file, s)
    ensures SameStream(file, s, ReadsAhead(file, align, size, s, ra, least))
    decreases ra - |s.queue|
  {
    if |s.queue| < ra && (s.remain > 0 || |s.queue| < least) {
      OneReadIsRight(file, align, size, s);
      ReadsAheadAreRight(file, align, size, OneRead(file, align, size, s), ra, least);
    }
  }

  /** The bytes of all outstanding reads. */
  function TotalSize(queue: seq<IssuedRead>): nat {
    if queue == [] then 0 else queue[0].size + TotalSize(queue[1..])
  }

  /** The bytes of the reads that are dropped whole by a skip of n bytes. */
  function DroppedWhole(queue: seq<IssuedRead>, n: nat): nat {
    if queue == [] || n < queue[0].size then 0 else queue[0].size + DroppedWhole(queue[1..], n - queue[0].size)
  }

  /** They are the first reads, and the skip goes no further than one more. */
  lemma {:induction false} DroppedWholeReads(queue: seq<IssuedRead>, n: nat) returns (k: nat)
    ensures k <= |queue| && DroppedWhole(queue, n) == TotalSize(queue[..k]) <= n
    ensures k < |queue| ==> n < TotalSize(queue[..k]) + queue[k].size
  {
    k := 0;
    if queue != [] && n >= queue[0].size {
      var j := DroppedWholeReads(queue[1..], n - queue[0].size);
      k := j + 1;
      assert queue[..k][1..] == queue[1..][..j];
    }
  }

  lemma {:induction false} TotalIsDistance(file: seq<Byte>, queue: seq<IssuedRead>, pos: nat, remain: nat)
    requires ReadsOk(file, queue, pos, remain)
    ensures NextByte(queue, pos) + TotalSize(queue) == pos
    decreases |queue|
  {
    if queue != [] {
      PopRead(file, queue, pos, remain);
      TotalIsDistance(file, queue[1..], pos, remain);
    }
  }

  lemma TotalStep(queue: seq<IssuedRead>, i: nat)
    requires i < |queue|
    ensures TotalSize(queue[i..]) == queue[i].size + TotalSize(queue[i + 1..])
  {
    assert queue[i..][1..] == queue[i + 1..];
  }

  /** What was read and what is left are the whole. */
  ghost predicate ReadSoFar(all: seq<Byte>, rest: seq<Byte>, whole: seq<Byte>) {
    all + rest == whole
  }

  lemma NothingRead(whole: seq<Byte>)
    ensures ReadSoFar([], whole, whole)
  {
  }

  lemma MoreRead(all: seq<Byte>, data: seq<Byte>, rest: seq<Byte>, before: seq<Byte>, whole: seq<Byte>)
    requires ReadSoFar(all, before, whole) && data + rest == before
    ensures ReadSoFar(all + data, rest, whole) && (data != [] ==> |rest| < |before|)
  {
    assert (all + data) + rest == all + (data + rest);
  }

  lemma AllRead(all: seq<Byte>, whole: seq<Byte>)
    requires ReadSoFar(all, [], whole)
    ensures all == whole
  {
  }

  /** The data source of an input stream over a range of a file. */
  class FileDataSource {
    const file: seq<Byte>
    const align: nat
    const bufferSize: nat
    const readAhead: nat
    const history: History?
    var pos: nat
    var remain: nat
    var queue: seq<IssuedRead>
    var currentReadAhead: nat
    var currentBufferSize: nat
    var inSlowStart: bool
    var closed: bool
    ghost const end: nat

    ghost predicate Valid()
      reads this
    {
      && align > 0 && bufferSize > 0
      && MinimalBufferSize(bufferSize) <= currentBufferSize <= bufferSize && currentBufferSize > 0
      && (inSlowStart <==> currentBufferSize < bufferSize)
      && pos + remain == end && ReadsOk(file, queue, pos, remain)
    }

    /** What the stream has still to deliver. */
    ghost function Rest(): seq<Byte>
      reads this
    {
      Slice(file, NextByte(queue, pos), end)
    }

    /** The next buffer was trimmed by more than it held. */
    ghost predicate Broken()
      reads this
    {
      queue != [] && queue[0].buf.Wrapped?
    }

    constructor (file: seq<Byte>, align: nat, offset: nat, len: nat, bufferSize: nat, readAhead: nat, history: History?)
      requires align > 0 && bufferSize > 0 && offset < TWO_TO_THE_64 && len < TWO_TO_THE_64
      ensures Valid() && !Broken() && !closed && this.file == file && this.align == align && this.history == history
      ensures this.bufferSize == bufferSize && this.readAhead == readAhead
      ensures end == Min(offset + len, TWO_TO_THE_64 - 1) && State() == Reads(offset, end - offset, [])
      ensures history == null ==> currentBufferSize == bufferSize && currentReadAhead == Min(readAhead, 1)
      ensures history != null ==>
                var size := ShrunkBufferSize(history.Total(), history.Unused(), bufferSize);
                && currentBufferSize == Min(bufferSize, size)
                && currentReadAhead == Min(Min(history.readAhead, readAhead),
                                           if size < bufferSize then 1 else readAhead)
    {
      this.file, this.align, this.bufferSize, this.readAhead, this.history :=
        file, align, bufferSize, readAhead, history;
      pos, queue, closed := offset, [], false;
      currentReadAhead := if history != null then Min(history.readAhead, readAhead) else if readAhead > 0 then 1 else 0;
      currentBufferSize, inSlowStart := bufferSize, false;
      remain := Min(TWO_TO_THE_64 - 1 - offset, len);
      end := Min(offset + len, TWO_TO_THE_64 - 1);
      new;
      SetNewBufferSize(false);
    }

    /** Goes back to smaller buffers when too much of what was read was dropped. */
    method SetNewBufferSize(afterSkip: bool)
      requires Valid()
      modifies `currentBufferSize, `inSlowStart, `currentReadAhead
      ensures Valid()
      ensures if history != null && !(afterSkip && BelowTarget(history.Unused(), history.Total()))
                 && ShrunkBufferSize(history.Total(), history.Unused(), bufferSize) < old(currentBufferSize)
              then currentBufferSize == ShrunkBufferSize(history.Total(), history.Unused(), bufferSize)
                   && currentReadAhead == Min(old(currentReadAhead), 1)
              else currentBufferSize == old(currentBufferSize) && currentReadAhead == old(currentReadAhead)
    {
      if history == null { return; }
      var total, unused := history.Total(), history.Unused();
      if afterSkip && BelowTarget(unused, total) { return; }
      var newSize := ShrunkBufferSize(total, unused, bufferSize);
      if newSize >= currentBufferSize { return; }
      inSlowStart := true;
      currentReadAhead := Min(currentReadAhead, 1);
      currentBufferSize := newSize;
    }

    /** Doubles the buffer size when even dropping such a buffer would keep the stream below the target. */
    method UpdateHistoryConsumed(bytes: nat)
      requires Valid()
      modifies `currentBufferSize, `inSlowStart, history
      ensures Valid()
      ensures history != null ==>
                history.State() == Counted(old(history.State()), 0, bytes)
                && history.readAhead == old(history.readAhead)
      ensures history == null ==> currentBufferSize == old(currentBufferSize)
      ensures history != null ==>
                var newSize := Min(old(currentBufferSize) * 2, bufferSize);
                currentBufferSize == if old(inSlowStart)
                  && BelowTarget(history.Unused() + newSize, history.Total() + newSize)
                                     then newSize else old(currentBufferSize)
    {
      if history == null { return; }
      history.Update(0, bytes);
      if !inSlowStart { return; }
      var newSize := Min(currentBufferSize * 2, bufferSize);
      if BelowTarget(history.Unused() + newSize, history.Total() + newSize) {
        currentBufferSize := newSize;
        inSlowStart := currentBufferSize < bufferSize;
      }
    }

    /** Counts what was dropped; too much of it means smaller buffers and at most one read ahead. */
    method UpdateHistoryUnused(bytes: nat)
      requires Valid()
      modifies `currentBufferSize, `inSlowStart, `currentReadAhead, history
      ensures Valid()
      ensures history != null ==>
                history.State() == Counted(old(history.State()), bytes, bytes)
                && history.readAhead == old(history.readAhead)
      ensures if history != null && !BelowTarget(history.Unused(), history.Total())
                 && ShrunkBufferSize(history.Total(), history.Unused(), bufferSize) < old(currentBufferSize)
              then currentBufferSize == ShrunkBufferSize(history.Total(), history.Unused(), bufferSize)
                   && currentReadAhead == Min(old(currentReadAhead), 1)
              else currentBufferSize == old(currentBufferSize) && currentReadAhead == old(currentReadAhead)
    {
      if history == null { return; }
      history.Update(bytes, bytes);
      SetNewBufferSize(true);
    }

    /** More read-ahead for a consumer that has to wait. */
    method TryIncreaseReadAhead()
      modifies `currentReadAhead, history
      ensures currentReadAhead == old(currentReadAhead) + if old(currentReadAhead) < readAhead
              && !inSlowStart then 1 else 0
      ensures history != null ==> history.State() == old(history.State())
      ensures history != null ==>
                history.readAhead == Max(old(history.readAhead),
                                         if currentReadAhead > old(currentReadAhead) then currentReadAhead else 0)
    {
      if currentReadAhead < readAhead && !inSlowStart {
        currentReadAhead := currentReadAhead + 1;
        if history != null {
          history.readAhead := Max(history.readAhead, currentReadAhead);
        }
      }
    }

    ghost function State(): Reads
      reads this
    {
      Reads(pos, remain, queue)
    }

    /** One more read; none is left to do when the range is used up. */
    method IssueRead()
      requires Valid()
      modifies `pos, `remain, `queue
      ensures Valid() && State() == OneRead(file, align, currentBufferSize, old(State()))
    {
      OneReadIsRight(file, align, currentBufferSize, State());
      if remain == 0 {
        queue := queue + [IssuedRead(pos, 0, Bytes([]))];
      } else {
        var data, last := ReadBlocks(file, align, pos, remain, currentBufferSize);
        queue := queue + [IssuedRead(pos, last - pos, Bytes(data))];
        remain := remain - (last - pos);
        pos := last;
      }
    }

    /** issue_read_aheads(): nothing more once the stream is closed. */
    method IssueReadAheads(additional: nat)
      requires Valid()
      modifies `pos, `remain, `queue
      ensures Valid() && Rest() == old(Rest()) && Broken() == old(Broken())
              && NextByte(queue, pos) == old(NextByte(queue, pos))
      ensures State() == if closed then old(State())
                         else ReadsAhead(file, align, currentBufferSize, old(State()), currentReadAhead
                           + additional, additional)
    {
      if closed { return; }
      var ra := currentReadAhead + additional;
      ReadsAheadAreRight(file, align, currentBufferSize, State(), ra, additional);
      while |queue| < ra
        invariant Valid()
        invariant ReadsAhead(file, align, currentBufferSize, State(), ra, additional)
                  == ReadsAhead(file, align, currentBufferSize, old(State()), ra, additional)
      {
        if remain == 0 && |queue| >= additional { return; }
        IssueRead();
      }
    }

    method PopFront() returns (ret: IssuedRead)
      requires Valid() && queue != []
      modifies `queue
      ensures ret == old(queue)[0] && queue == old(queue)[1..]
      ensures Valid() && !Broken() && (ret.buf.Wrapped? <==> old(Broken()))
      ensures ret.buf.Bytes? ==> ret.buf.data + Rest() == old(Rest()) && (ret.buf.data == [] ==> old(Rest()) == [])
    {
      Popped(file, queue, pos, remain);
      ret, queue := queue[0], queue[1..];
    }

    /** The oldest read, after more were issued if there is room for them. */
    method NextBuffer() returns (ret: IssuedRead)
      requires Valid() && !closed
      modifies `pos, `remain, `queue
      ensures var t := ReadsAhead(file, align, currentBufferSize, old(State()), currentReadAhead + 1, 1);
              t.queue != [] && State() == t.(queue := t.queue[1..]) && ret == t.queue[0]
      ensures Valid() && !Broken() && (ret.buf.Wrapped? <==> old(Broken()))
      ensures ret.buf.Bytes? ==> ret.buf.data + Rest() == old(Rest()) && (ret.buf.data == [] ==> old(Rest()) == [])
    {
      ReadsAheadFacts(file, align, currentBufferSize, State(), currentReadAhead + 1, 1);
      IssueReadAheads(1);
      ret := PopFront();
    }

    /**
     * The next buffer. blocked is whether the oldest outstanding read has not completed yet. The
     * buffer is the next part of the range, and empty only at its end or the end of the file.
     */
    method Get(blocked: bool) returns (buf: Buffer)
      requires Valid() && !closed
      modifies this, history
      ensures Valid() && !Broken() && !closed
      ensures old(Broken()) ==> buf.Wrapped?
      ensures !old(Broken()) ==>
              buf.Bytes? && buf.data + Rest() == old(Rest()) && (buf.data == [] ==> old(Rest()) == [])
      ensures var t := ReadsAhead(file, align, old(currentBufferSize), old(State()), currentReadAhead + 1, 1);
              t.queue != [] && State() == t.(queue := t.queue[1..])
      ensures currentReadAhead == old(currentReadAhead)
                                  + if old(queue) != [] && blocked && old(currentReadAhead) < readAhead
                                    && !old(inSlowStart) then 1 else 0
      ensures history == null ==> currentBufferSize == old(currentBufferSize)
      ensures var t := ReadsAhead(file, align, old(currentBufferSize), old(State()), currentReadAhead + 1, 1);
              history != null && t.queue != [] ==>
                history.State() == Counted(old(history.State()), 0, t.queue[0].size)
    {
      if queue != [] && blocked {
        TryIncreaseReadAhead();
      }
      var ret := NextBuffer();
      UpdateHistoryConsumed(ret.size);
      buf := ret.buf;
    }

    /** close(): what was read ahead counts as dropped, and nothing more is read. */
    method Close()
      requires Valid()
      modifies `closed, `currentBufferSize, `inSlowStart, `currentReadAhead, history
      ensures Valid() && closed && State() == old(State())
      ensures history != null ==>
                history.State() == Counted(old(history.State()), TotalSize(queue), TotalSize(queue))
    {
      closed := true;
      var dropped := Outstanding();
      UpdateHistoryUnused(dropped);
    }

    /** The bytes from the next one of the stream up to where reading has got. */
    method Outstanding() returns (dropped: nat)
      requires Valid()
      ensures dropped == TotalSize(queue) == pos - NextByte(queue, pos)
    {
      TotalIsDistance(file, queue, pos, remain);
      dropped := 0;
      for i := 0 to |queue|
        invariant dropped + TotalSize(queue[i..]) == TotalSize(queue)
      {
        TotalStep(queue, i);
        dropped := dropped + queue[i].size;
      }
    }

    /** One turn of the loop in skip: past the first read, or into it, or without any read. */
    method SkipSome(n: nat) returns (left: nat, dropped: nat)
      requires Valid() && 0 < n <= end - NextByte(queue, pos)
      modifies `pos, `remain, `queue
      ensures Valid() && left <= n && NextByte(queue, pos) + left == old(NextByte(queue, pos)) + n
      ensures dropped + DroppedWhole(queue, left) == DroppedWhole(old(queue), n)
      ensures left == 0 || (|queue| < |old(queue)|)
      ensures !old(Broken()) ==>
                var p := old(NextByte(queue, pos)) + n;
                if left > 0 then !Broken() && (Inside(queue, p) <==> Inside(old(queue), p))
                else Broken() <==> p > |file| && Inside(old(queue), p)
    {
      left, dropped := 0, 0;
      InsideFacts(file, queue, pos, remain, NextByte(queue, pos) + n);
      if queue == [] {
        pos, remain := pos + n, remain - n;
      } else if n < queue[0].size {
        TrimFirstRead(file, queue, pos, remain, n);
        queue := [IssuedRead(queue[0].pos + n, queue[0].size - n, TrimFront(queue[0].buf, n))] + queue[1..];
      } else {
        PopRead(file, queue, pos, remain);
        left, dropped := n - queue[0].size, queue[0].size;
        queue := queue[1..];
        InsideFacts(file, queue, pos, remain, NextByte(queue, pos) + left);
      }
    }

    /** The loop of skip: past n bytes, whose whole reads are dropped. */
    method SkipReads(n: nat) returns (dropped: nat)
      requires Valid() && n <= end - NextByte(queue, pos)
      modifies `pos, `remain, `queue
      ensures Valid() && NextByte(queue, pos) == old(NextByte(queue, pos)) + n
      ensures !old(Broken()) && n > 0 ==>
                (Broken() <==>
                  old(NextByte(queue, pos)) + n > |file| && Inside(old(queue), old(NextByte(queue, pos)) + n))
      ensures n == 0 ==> Broken() == old(Broken())
      ensures dropped == DroppedWhole(old(queue), n)
    {
      ghost var p := NextByte(queue, pos) + n;
      var left: nat := n;
      dropped := 0;
      while left > 0
        invariant Valid() && NextByte(queue, pos) + left == p
        invariant n == 0 ==> queue == old(queue)
        invariant dropped + DroppedWhole(queue, left) == DroppedWhole(old(queue), n)
        invariant !old(Broken()) && n > 0 ==>
                    if left > 0 then !Broken() && (Inside(queue, p) <==> Inside(old(queue), p))
                    else Broken() <==> p > |file| && Inside(old(queue), p)
        decreases left > 0, |queue|
      {
        var d;
        left, d := SkipSome(left);
        dropped := dropped + d;
      }
      ghost var k := DroppedWholeReads(queue, 0);
    }

    /**
     * Skips n bytes of the range. The next buffer is left intact exactly when the new position is not
     * behind the end of the file, or not inside a read that was already issued.
     */
    method Skip(n: nat)
      requires Valid() && n <= end - NextByte(queue, pos)
      modifies this, history
      ensures Valid() && closed == old(closed)
      ensures NextByte(queue, pos) == old(NextByte(queue, pos)) + n
      ensures Rest() == old(Rest())[Min(n, |old(Rest())|)..]
      ensures !old(Broken()) && n > 0 ==>
                (Broken() <==>
                  old(NextByte(queue, pos)) + n > |file| && Inside(old(queue), old(NextByte(queue, pos)) + n))
      ensures n == 0 ==> Broken() == old(Broken())
      ensures history != null ==>
                var dropped := DroppedWhole(old(queue), n);
                history.State() == Counted(old(history.State()), dropped, dropped)
    {
      var dropped := SkipReads(n);
      UpdateHistoryUnused(dropped);
    }

    /** The next bytes of the range, and none only if none are left. */
    method GetNext(blocked: bool) returns (data: seq<Byte>)
      requires Valid() && !closed && !Broken()
      modifies this, history
      ensures Valid() && !closed && !Broken()
      ensures data + Rest() == old(Rest()) && (data == [] ==> Rest() == [])
    {
      var buf := Get(blocked);
      data := buf.data;
      assert data == [] ==> data + Rest() == Rest();
    }

    /**
     * Reading to the end, as every consumer of the stream does: until a buffer is empty. The buffers
     * make up what was left of the range.
     */
    method ReadAll() returns (all: seq<Byte>)
      requires Valid() && !closed && !Broken()
      modifies this, history
      ensures Valid() && all == old(Rest()) && Rest() == []
    {
      all := [];
      var done := false;
      ghost var whole := Rest();
      NothingRead(whole);
      while !done
        invariant Valid() && !closed && !Broken()
        invariant ReadSoFar(all, Rest(), whole)
        invariant done ==> Rest() == []
        decreases !done, |Rest()|
      {
        ghost var before := Rest();
        var blocked := *;
        var data := GetNext(blocked);
        MoreRead(all, data, Rest(), before, whole);
        all := all + data;
        done := data == [];
      }
      AllRead(all, whole);
    }
  }

  /** A stream over a range of a file delivers that range, up to the end of the file. */
  method ReadRange(file: seq<Byte>, align: nat, offset: nat, len: nat, bufferSize: nat, readAhead: nat,
        history: History?)
    returns (all: seq<Byte>)
    requires align > 0 && bufferSize > 0 && offset < TWO_TO_THE_64 && len < TWO_TO_THE_64 && |file| < TWO_TO_THE_64
    modifies history
    ensures all == Slice(file, offset, offset + len)
  {
    var s := new FileDataSource(file, align, offset, len, bufferSize, readAhead, history);
    all := s.ReadAll();
  }

  lemma EndOfEightBlocks(pos: nat, remain: nat)
    requires pos % 512 == 0 && remain > 8192
    ensures EndOfRead(pos, remain, 8192, 512) == pos + 8192
  {
    assert AlignDown(pos, 512) == pos;
    AlignUpLeast(pos + 8192, 512, pos + 8192);
  }

  lemma ReadOfEightBlocks(file: seq<Byte>, s: Reads, data: seq<Byte>)
    requires s.pos % 512 == 0 && s.remain > 8192 && Slice(file, s.pos, s.pos + 8192) == data
    ensures OneRead(file, 512, 8192, s)
            == Reads(s.pos + 8192, s.remain - 8192, s.queue + [IssuedRead(s.pos, 8192, Bytes(data))])
  {
    EndOfEightBlocks(s.pos, s.remain);
  }

  lemma UnrollTwice(file: seq<Byte>, align: nat, size: nat, s: Reads, t: Reads, u: Reads)
    requires align > 0 && size > 0 && s.queue == [] && s.remain > 0 && t.remain > 0
    requires t == OneRead(file, align, size, s) && u == OneRead(file, align, size, t)
    ensures ReadsAhead(file, align, size, s, 2, 1) == u
  {
    assert |t.queue| == 1 && |u.queue| == 2;
    assert ReadsAhead(file, align, size, u, 2, 1) == u;
    assert ReadsAhead(file, align, size, t, 2, 1) == u;
  }

  lemma TwoReads(file: seq<Byte>, s0: Reads)
    requires |file| == 1 && s0 == Reads(0, 20000, [])
    ensures ReadsAhead(file, 512, 8192, s0, 2, 1)
            == Reads(16384, 3616, [IssuedRead(0, 8192, Bytes(file)), IssuedRead(8192, 8192, Bytes([]))])
  {
    var s1 := Reads(8192, 11808, s0.queue + [IssuedRead(0, 8192, Bytes(file))]);
    var s2 := Reads(16384, 3616, s1.queue + [IssuedRead(8192, 8192, Bytes([]))]);
    assert Slice(file, 0, 8192) == file;
    ReadOfEightBlocks(file, s0, file);
    ReadOfEightBlocks(file, s1, []);
    UnrollTwice(file, 512, 8192, s0, s1, s2);
  }

  /** One byte of file, two reads issued: a skip into the second one leaves a buffer that is trimmed too far. */
  method SkipBehindEnd() returns (buf: Buffer)
    ensures buf.Wrapped?
  {
    var s := new FileDataSource([7], 512, 0, 20000, 8192, 1, null);
    TwoReads(s.file, s.State());
    buf := s.Get(false);
    assert s.queue[0] == IssuedRead(8192, 8192, Bytes([]));
    s.Skip(1);
    buf := s.Get(false);
  }
}
