/**
 * The circular buffer (core/circular_buffer.hh): begin and end count modulo 2^64 and never go back to
 * zero on their own; the capacity is a power of two and an index is masked when a slot is accessed.
 */
module CircularBuffers {
  import opened Bits
  import opened Rings

  const INDEX_BITS: nat := 64
  const INDEX_RANGE: int := 0x1_0000_0000_0000_0000

  /** A size_t. */
  type Index = i: int | 0 <= i < INDEX_RANGE

  /** Masking does not see it either. */
  lemma MaskOfWrap(idx: int, k: nat)
    requires k <= INDEX_BITS && -INDEX_RANGE <= idx < 2 * INDEX_RANGE
    ensures Mask(Wrap(idx, INDEX_RANGE), k) == Mask(idx, k)
  {
    DividesWord(k);
    SlotOfWrap(idx, 0, k, INDEX_RANGE);
  }

  lemma ViewWrap<T>(s: seq<T>, b: int, n: nat, k: nat)
    requires |s| == Pow2(k) && k <= INDEX_BITS && -INDEX_RANGE <= b < 2 * INDEX_RANGE
    ensures View(s, Wrap(b, INDEX_RANGE), n, k) == View(s, b, n, k)
  {
    DividesWord(k);
    forall j | 0 <= j < n ensures View(s, Wrap(b, INDEX_RANGE), n, k)[j] == View(s, b, n, k)[j] {
      SlotOfWrap(b, j, k, INDEX_RANGE);
    }
  }

  lemma EndSlot(begin: Index, end: Index, k: nat)
    requires k <= INDEX_BITS
    ensures Mask(end, k) == Slot(begin, Distance(begin, end, INDEX_RANGE), k)
  {
    MaskOfWrap(begin + Distance(begin, end, INDEX_RANGE), k);
  }

  lemma ViewPushedFront<T>(s: seq<T>, b: int, n: nat, k: nat, x: T)
    requires |s| == Pow2(k) && n < Pow2(k) && k <= INDEX_BITS && 0 <= b < INDEX_RANGE
    ensures View(s[Slot(b - 1, 0, k) := x], Wrap(b - 1, INDEX_RANGE), n + 1, k) == [x] + View(s, b, n, k)
  {
    ViewPushFront(s, b, n, k, x);
    ViewWrap(s[Slot(b - 1, 0, k) := x], b - 1, n + 1, k);
  }

  lemma ViewPopFront<T>(s: seq<T>, b: int, n: nat, k: nat)
    requires |s| == Pow2(k) && 0 < n && k <= INDEX_BITS && 0 <= b < INDEX_RANGE
    ensures View(s, Wrap(b + 1, INDEX_RANGE), n - 1, k) == View(s, b, n, k)[1..]
  {
    ViewParts(s, b, n, k, 1);
    ViewWrap(s, b + 1, n - 1, k);
  }

  /** v is c with its elements t..i moved up by j - i. */
  ghost predicate MovedUp<T>(v: seq<T>, c: seq<T>, t: nat, i: nat, j: nat) {
    && |v| == |c| && t <= i <= j <= |c|
    && (forall x :: 0 <= x < t || j <= x < |c| ==> v[x] == c[x])
    && (forall x :: t <= x < i ==> v[x + (j - i)] == c[x])
  }

  lemma MovedUpMore<T>(v: seq<T>, c: seq<T>, t: nat, i: nat, j: nat)
    requires MovedUp(v, c, t, i, j) && t > 0
    ensures MovedUp(v[t - 1 + (j - i) := v[t - 1]], c, t - 1, i, j)
  {
  }

  lemma MovedUpAll<T>(v: seq<T>, c: seq<T>, i: nat, j: nat)
    requires MovedUp(v, c, 0, i, j)
    ensures v[j - i..] == c[..i] + c[j..]
  {
    var w := c[..i] + c[j..];
    forall y | 0 <= y < |w| ensures v[j - i..][y] == w[y] {
      assert v[j - i..][y] == v[y + (j - i)];
    }
  }

  /** v is c with u elements from j on moved down to i. */
  ghost predicate MovedDown<T>(v: seq<T>, c: seq<T>, u: nat, i: nat, j: nat) {
    && |v| == |c| && i <= j && j + u <= |c|
    && (forall x :: 0 <= x < i || i + u <= x < |c| ==> v[x] == c[x])
    && (forall x :: i <= x < i + u ==> v[x] == c[x + (j - i)])
  }

  lemma MovedDownMore<T>(v: seq<T>, c: seq<T>, u: nat, i: nat, j: nat)
    requires MovedDown(v, c, u, i, j) && j + u < |c|
    ensures MovedDown(v[i + u := v[j + u]], c, u + 1, i, j)
  {
  }

  lemma MovedDownAll<T>(v: seq<T>, c: seq<T>, u: nat, i: nat, j: nat)
    requires MovedDown(v, c, u, i, j) && j + u == |c|
    ensures v[..|c| - (j - i)] == c[..i] + c[j..]
  {
    var w := c[..i] + c[j..];
    forall y | 0 <= y < |w| ensures v[..|c| - (j - i)][y] == w[y] {
      if y >= i { assert w[y] == c[y + (j - i)]; }
    }
  }

  /** capacity() never exceeds half the range of an index. */
  const MAX_CAPACITY_BITS: nat := 63

  lemma HalfRange()
    ensures INDEX_RANGE == 2 * Pow2(MAX_CAPACITY_BITS)
  {
    WordSizes();
    Pow2Add(1, MAX_CAPACITY_BITS);
  }

  class CircularBuffer<T(0)> {
    var storage: array<T>
    var begin: Index
    var end: Index
    /** The capacity is 2^bits, once there is any. */
    ghost var bits: nat

    ghost predicate Valid()
      reads this
    {
      && (storage.Length == 0 ==> begin == end)
      && (storage.Length > 0 ==> storage.Length == Pow2(bits) && bits <= MAX_CAPACITY_BITS && Size() <= storage.Length)
    }

    function Size(): nat
      reads this
    {
      Distance(begin, end, INDEX_RANGE)
    }

    /** The sequence of elements the buffer stands for. */
    ghost function Contents(): (v: seq<T>)
      requires Valid()
      reads this, storage
      ensures storage.Length > 0 ==> |v| == Size()
    {
      if storage.Length == 0 then [] else View(storage[..], begin, Size(), bits)
    }

    constructor ()
      ensures Valid() && Contents() == [] && fresh(storage) && storage.Length == 0
    {
      storage, begin, end, bits := new T[0], 0, 0, 0;
    }

    /** operator[]. */
    method Get(i: nat) returns (x: T)
      requires Valid() && i < |Contents()|
      ensures x == Contents()[i]
    {
      DividesWord(bits);
      SlotOfWrap(begin + i, 0, bits, INDEX_RANGE);
      x := storage[Wrap(begin + i, INDEX_RANGE) % storage.Length];
    }

    /** The index p further on from begin, and the element there. */
    lemma Indexed(p: nat, i: Index)
      requires Valid() && p <= |Contents()| && i == Wrap(begin + p, INDEX_RANGE)
      ensures i == end <==> p == |Contents()|
      ensures p < |Contents()| ==>
              storage.Length > 0 && Slot(begin, p, bits) == Mask(i, bits) && Mask(i, bits) == i % storage.Length
      ensures p < |Contents()| ==> Contents()[p] == storage[i % storage.Length]
    {
      HalfRange();
      if storage.Length > 0 {
        Pow2Mono(bits, MAX_CAPACITY_BITS);
        MaskOfWrap(begin + p, bits);
      } else {
      }
    }

    method Copied(newCapacity: nat) returns (s: array<T>, p: nat)
      requires Valid() && |Contents()| <= newCapacity
      ensures fresh(s) && s.Length == newCapacity && p == |Contents()| && s[..p] == Contents()
    {
      s := new T[newCapacity];
      p := 0;
      var i := begin;
      while i != end
        invariant p <= |Contents()| && i == Wrap(begin + p, INDEX_RANGE) && fresh(s) && s[..p] == Contents()[..p]
        decreases |Contents()| - p
      {
        Indexed(p, i);
        s[p] := storage[i % storage.Length];
        i := Wrap(i + 1, INDEX_RANGE);
        p := p + 1;
      }
      Indexed(p, i);
    }

    /** expand(): the elements move to the front of a larger storage. */
    method Expand(newCapacity: nat, ghost newBits: nat)
      requires Valid() && |Contents()| <= newCapacity == Pow2(newBits) && newBits <= MAX_CAPACITY_BITS
      modifies this
      ensures Valid() && Contents() == old(Contents()) && fresh(storage) && storage.Length == newCapacity
              && bits == newBits
    {
      var s, p := Copied(newCapacity);
      Pow2Mono(newBits, MAX_CAPACITY_BITS);
      HalfRange();
      ViewFromZero(s[..], p, newBits);
      storage, begin, end, bits := s, 0, p, newBits;
    }

    /** reserve(): the least power of two that holds size elements, if that is more than there is room for. */
    method Reserve(size: nat)
      requires Valid() && size <= Pow2(MAX_CAPACITY_BITS)
      modifies this
      ensures Valid() && Contents() == old(Contents()) && size <= storage.Length
      ensures size <= old(storage.Length) ==> storage == old(storage)
      ensures size > old(storage.Length) ==> fresh(storage) && storage.Length == Pow2(bits) < 2 * size
    {
      if storage.Length < size {
        ghost var k := CeilLog2(size, MAX_CAPACITY_BITS);
        assert |Contents()| <= storage.Length;
        Expand(Pow2(BitLength(size - 1)), k);
      }
    }

    method MaybeExpand()
      requires Valid() && Size() < Pow2(MAX_CAPACITY_BITS)
      modifies this
      ensures Valid() && Contents() == old(Contents()) && Size() < storage.Length
      ensures if old(Size()) < old(storage.Length) then storage == old(storage) && begin == old(begin)
              else fresh(storage) && storage.Length == if old(storage.Length) == 0 then 1 else old(storage.Length) * 2
    {
      assert |Contents()| == Size();
      if Size() + 1 > storage.Length {
        if storage.Length == 0 {
          Expand(1, 0);
        } else {
          assert Pow2(bits) < Pow2(MAX_CAPACITY_BITS);
          assert bits != MAX_CAPACITY_BITS;
          Expand(storage.Length * 2, bits + 1);
        }
        assert |Contents()| == Size();
      }
    }

    method PushBack(x: T)
      requires Valid() && Size() < Pow2(MAX_CAPACITY_BITS)
      modifies this, storage
      ensures Valid() && Contents() == old(Contents()) + [x]
      ensures if old(Size()) < old(storage.Length) then storage == old(storage)
              else fresh(storage) && storage.Length == if old(storage.Length) == 0 then 1 else old(storage.Length) * 2
    {
      MaybeExpand();
      PutBack(x);
    }

    method PutBack(x: T)
      requires Valid() && Size() < storage.Length
      modifies `end, storage
      ensures Valid() && Contents() == old(Contents()) + [x] && storage == old(storage)
    {
      EndFacts();
      ghost var s := storage[..];
      ViewPushBack(s, begin, Size(), bits, x);
      storage[end % storage.Length] := x;
      assert storage[..] == s[Slot(begin, Size(), bits) := x];
      end := Wrap(end + 1, INDEX_RANGE);
    }

    lemma EndFacts()
      requires Valid() && Size() < storage.Length
      ensures Slot(begin, Size(), bits) == end % storage.Length && Size() + 1 < INDEX_RANGE
    {
      Pow2Mono(bits, MAX_CAPACITY_BITS);
      HalfRange();
      EndSlot(begin, end, bits);
    }

    method PushFront(x: T)
      requires Valid() && Size() < Pow2(MAX_CAPACITY_BITS)
      modifies this, storage
      ensures Valid() && Contents() == [x] + old(Contents())
      ensures if old(Size()) < old(storage.Length) then storage == old(storage)
              else fresh(storage) && storage.Length == if old(storage.Length) == 0 then 1 else old(storage.Length) * 2
    {
      MaybeExpand();
      PutFront(x);
    }

    method PutFront(x: T)
      requires Valid() && Size() < storage.Length
      modifies `begin, storage
      ensures Valid() && Contents() == [x] + old(Contents()) && storage == old(storage)
    {
      FrontFacts();
      ghost var s := storage[..];
      ViewPushedFront(s, begin, Size(), bits, x);
      storage[Wrap(begin - 1, INDEX_RANGE) % storage.Length] := x;
      assert storage[..] == s[Slot(begin - 1, 0, bits) := x];
      begin := Wrap(begin - 1, INDEX_RANGE);
    }

    lemma FrontFacts()
      requires Valid() && Size() < storage.Length
      ensures Slot(begin - 1, 0, bits) == Wrap(begin - 1, INDEX_RANGE) % storage.Length && Size() + 1 < INDEX_RANGE
    {
      EndFacts();
      MaskOfWrap(begin - 1, bits);
    }

    method PopFront() returns (x: T)
      requires Valid() && Contents() != []
      modifies `begin
      ensures Valid() && x == old(Contents()[0]) && Contents() == old(Contents()[1..])
    {
      x := Get(0);
      ViewPopFront(storage[..], begin, Size(), bits);
      begin := Wrap(begin + 1, INDEX_RANGE);
    }

    method PopBack() returns (x: T)
      requires Valid() && Contents() != []
      modifies `end
      ensures Valid() && x == old(Contents())[|old(Contents())| - 1]
              && Contents() == old(Contents())[..|old(Contents())| - 1]
    {
      x := Get(Size() - 1);
      ViewParts(storage[..], begin, Size(), bits, Size() - 1);
      end := Wrap(end - 1, INDEX_RANGE);
    }

    /** The elements, when there are slots for them. */
    ghost function Elements(): seq<T>
      requires Valid() && storage.Length > 0
      reads this, storage
    {
      View(storage[..], begin, Size(), bits)
    }

    /** One move assignment between two elements. */
    method MoveElement(src: Index, dst: Index, ghost from: nat, ghost to: nat)
      requires Valid() && storage.Length > 0 && from < Size() && to < Size() && src == Wrap(begin + from, INDEX_RANGE)
               && dst == Wrap(begin + to, INDEX_RANGE)
      modifies storage
      ensures Valid() && Elements() == old(Elements())[to := old(Elements())[from]]
    {
      Indexed(from, src);
      Indexed(to, dst);
      ghost var s := storage[..];
      ViewUpdate(s, begin, Size(), bits, to, s[src % storage.Length]);
      storage[dst % storage.Length] := storage[src % storage.Length];
      assert storage[..] == s[Slot(begin, to, bits) := s[src % |s|]];
    }

    /**
     * In the middle of move_backward: src and dst are where the next element comes from and where
     * the last one went.
     */
    ghost predicate MovingUp(c: seq<T>, src: Index, dst: Index, t: nat, i: nat, j: nat)
      reads this, storage
    {
      && Valid() && storage.Length > 0 && MovedUp(Elements(), c, t, i, j)
      && src == Wrap(begin + t, INDEX_RANGE) && dst == Wrap(begin + (t + (j - i)), INDEX_RANGE)
    }

    method MoveOneUp(src: Index, dst: Index, ghost c: seq<T>, ghost t: nat, ghost i: nat, ghost j: nat)
          returns (s: Index, d: Index)
      requires MovingUp(c, src, dst, t, i, j) && t > 0
      modifies storage
      ensures MovingUp(c, s, d, t - 1, i, j)
    {
      MovedUpMore(Elements(), c, t, i, j);
      WrapAgain(begin + t, -1, INDEX_RANGE);
      WrapAgain(begin + (t + (j - i)), -1, INDEX_RANGE);
      s, d := Wrap(src - 1, INDEX_RANGE), Wrap(dst - 1, INDEX_RANGE);
      MoveElement(s, d, t - 1, t - 1 + (j - i));
    }

    /** std::move_backward(begin(), first, last): the elements before first move up to last. */
    method MoveBackward(first: Index, last: Index, ghost i: nat, ghost j: nat) returns (newBegin: Index)
      requires Valid() && storage.Length > 0 && i <= j <= Size() && first == Wrap(begin + i, INDEX_RANGE)
               && last == Wrap(begin + j, INDEX_RANGE)
      modifies storage
      ensures Valid() && newBegin == Wrap(begin + (j - i), INDEX_RANGE)
      ensures Elements()[j - i..] == old(Elements())[..i] + old(Elements())[j..]
    {
      var src := first;
      newBegin := last;
      ghost var t: nat := i;
      ghost var c := Elements();
      AtBegin(t);
      while src != begin
        invariant MovingUp(c, src, newBegin, t, i, j) && (src == begin <==> t == 0)
        decreases t
      {
        src, newBegin := MoveOneUp(src, newBegin, c, t, i, j);
        t := t - 1;
        AtBegin(t);
      }
      MovedUpAll(Elements(), c, i, j);
    }

    /** Only the index at distance 0 is begin. */
    lemma AtBegin(t: nat)
      requires Valid() && t <= Size()
      ensures Wrap(begin + t, INDEX_RANGE) == begin <==> t == 0
    {
    }

    ghost predicate MovingDown(c: seq<T>, src: Index, dst: Index, u: nat, i: nat, j: nat)
      reads this, storage
    {
      && Valid() && storage.Length > 0 && MovedDown(Elements(), c, u, i, j)
      && src == Wrap(begin + (j + u), INDEX_RANGE) && dst == Wrap(begin + (i + u), INDEX_RANGE)
    }

    method MoveOneDown(src: Index, dst: Index, ghost c: seq<T>, ghost u: nat, ghost i: nat, ghost j: nat)
          returns (s: Index, d: Index)
      requires MovingDown(c, src, dst, u, i, j) && j + u < |c|
      modifies storage
      ensures MovingDown(c, s, d, u + 1, i, j)
    {
      MovedDownMore(Elements(), c, u, i, j);
      WrapAgain(begin + (j + u), 1, INDEX_RANGE);
      WrapAgain(begin + (i + u), 1, INDEX_RANGE);
      MoveElement(src, dst, j + u, i + u);
      s, d := Wrap(src + 1, INDEX_RANGE), Wrap(dst + 1, INDEX_RANGE);
    }

    /** Only the index at distance Size() is end. */
    lemma AtEnd(t: nat)
      requires Valid() && t <= Size()
      ensures Wrap(begin + t, INDEX_RANGE) == end <==> t == Size()
    {
    }

    /** std::move(last, end(), first): the elements from last on move down to first. */
    method MoveForward(first: Index, last: Index, ghost i: nat, ghost j: nat) returns (newEnd: Index)
      requires Valid() && storage.Length > 0 && i <= j <= Size() && first == Wrap(begin + i, INDEX_RANGE)
               && last == Wrap(begin + j, INDEX_RANGE)
      modifies storage
      ensures Valid() && newEnd == Wrap(begin + (Size() - (j - i)), INDEX_RANGE)
      ensures Elements()[..Size() - (j - i)] == old(Elements())[..i] + old(Elements())[j..]
    {
      var src := last;
      newEnd := first;
      ghost var u: nat := 0;
      ghost var c := Elements();
      AtEnd(j);
      while src != end
        invariant MovingDown(c, src, newEnd, u, i, j) && (src == end <==> j + u == |c|)
        decreases |c| - (j + u)
      {
        src, newEnd := MoveOneDown(src, newEnd, c, u, i, j);
        u := u + 1;
        AtEnd(j + u);
      }
      MovedDownAll(Elements(), c, u, i, j);
    }

    /** The elements before the gap move. */
    method EraseUp(first: Index, last: Index)
      requires Valid() && storage.Length > 0
               && Distance(begin, first, INDEX_RANGE) <= Distance(begin, last, INDEX_RANGE) <= Size()
      modifies this, storage
      ensures Valid() && storage == old(storage) && end == old(end)
      ensures Contents() == old(Contents())[..old(Distance(begin, first, INDEX_RANGE))]
              + old(Contents())[old(Distance(begin, last, INDEX_RANGE))..]
      ensures Distance(begin, last, INDEX_RANGE) == old(Distance(begin, first, INDEX_RANGE))
    {
      ghost var i, j := Distance(begin, first, INDEX_RANGE), Distance(begin, last, INDEX_RANGE);
      GapEnds(begin, first, last, INDEX_RANGE);
      var newBegin := MoveBackward(first, last, i, j);
      AdvanceBegin(newBegin, j - i);
    }

    /** The first d elements go. */
    method AdvanceBegin(newBegin: Index, ghost d: nat)
      requires Valid() && storage.Length > 0 && d <= Size() && newBegin == Wrap(begin + d, INDEX_RANGE)
      modifies `begin
      ensures Valid() && Contents() == old(Elements())[d..]
    {
      DropFront(d);
      begin := newBegin;
    }

    /** The elements behind the gap move. */
    method EraseDown(first: Index, last: Index)
      requires Valid() && storage.Length > 0
               && Distance(begin, first, INDEX_RANGE) <= Distance(begin, last, INDEX_RANGE) <= Size()
      modifies this, storage
      ensures Valid() && storage == old(storage) && begin == old(begin)
      ensures Contents() == old(Contents())[..old(Distance(begin, first, INDEX_RANGE))]
              + old(Contents())[old(Distance(begin, last, INDEX_RANGE))..]
    {
      ghost var i, j := Distance(begin, first, INDEX_RANGE), Distance(begin, last, INDEX_RANGE);
      var newEnd := MoveForward(first, last, i, j);
      DropBack(j - i);
      end := newEnd;
    }

    /**
     * erase(first, last): the shorter of the two ends moves over the gap. The result is where the
     * element behind the gap is now.
     */
    method Erase(first: Index, last: Index) returns (next: Index)
      requires Valid() && Distance(begin, first, INDEX_RANGE) <= Distance(begin, last, INDEX_RANGE) <= Size()
      modifies this, storage
      ensures Valid() && storage == old(storage)
      ensures Contents() == old(Contents())[..old(Distance(begin, first, INDEX_RANGE))]
              + old(Contents())[old(Distance(begin, last, INDEX_RANGE))..]
      ensures Distance(begin, next, INDEX_RANGE) == old(Distance(begin, first, INDEX_RANGE))
      ensures if old(Distance(begin, first, INDEX_RANGE)) < old(Distance(last, end, INDEX_RANGE)) then end == old(end)
              else begin == old(begin)
    {
      if first == last {
        next := last;
      } else if Distance(begin, first, INDEX_RANGE) < Distance(last, end, INDEX_RANGE) {
        EraseUp(first, last);
        next := last;
      } else {
        EraseDown(first, last);
        next := first;
      }
    }

    lemma DropFront(d: nat)
      requires Valid() && storage.Length > 0 && d <= Size()
      ensures Distance(Wrap(begin + d, INDEX_RANGE), end, INDEX_RANGE) == Size() - d
      ensures View(storage[..], Wrap(begin + d, INDEX_RANGE), Size() - d, bits) == Elements()[d..]
    {
      ViewParts(storage[..], begin, Size(), bits, d);
      ViewWrap(storage[..], begin + d, Size() - d, bits);
    }

    lemma DropBack(d: nat)
      requires Valid() && storage.Length > 0 && d <= Size()
      ensures Distance(begin, Wrap(begin + (Size() - d), INDEX_RANGE), INDEX_RANGE) == Size() - d
      ensures View(storage[..], begin, Size() - d, bits) == Elements()[..Size() - d]
    {
      ViewParts(storage[..], begin, Size(), bits, Size() - d);
    }

    /** clear(). */
    method Clear()
      requires Valid()
      modifies this, storage
      ensures Valid() && Contents() == []
    {
      var next := Erase(begin, end);
    }
  }

  lemma BitLengthBelow(x: nat, k: nat)
    requires x < Pow2(k)
    ensures BitLength(x) <= k
  {
    if x > 0 {
      BitLengthBounds(x);
      if BitLength(x) > k {
        Pow2Mono(k, BitLength(x) - 1);
      }
    }
  }

  /** log2ceil(), the number of bits of the capacity that holds size elements. */
  lemma CeilLog2(size: nat, most: nat) returns (k: nat)
    requires 0 < size <= Pow2(most)
    ensures k == BitLength(size - 1) <= most && size <= Pow2(k) < 2 * size
  {
    k := BitLength(size - 1);
    BitLengthBelow(size - 1, most);
    if size > 1 {
      BitLengthBounds(size - 1);
    }
  }
}
