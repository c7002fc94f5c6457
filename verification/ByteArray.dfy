// ByteArray of bytearray.cc: a cursor over linked blocks that behaves as one flat
// byte string.
module ByteArrays {
  import opened Blocks

  // ---- Positions -----------------------------------------------------------------------

  lemma Locate(p: nat, base: nat)
    requires base > 0
    ensures p == Span(p / base, base) + p % base && p % base < base
  {
  }

  lemma {:induction false} SpanGap(a: nat, b: nat, base: nat)
    requires a < b
    ensures Span(a, base) + base <= Span(b, base)
    decreases b
  {
    hide Span;
    SpanNext(b - 1, base);
    if a + 1 < b {
      SpanGap(a, b - 1, base);
    }
  }

  lemma DivOf(k: nat, o: nat, base: nat)
    requires o < base
    ensures (Span(k, base) + o) / base == k && (Span(k, base) + o) % base == o
  {
    var q := (Span(k, base) + o) / base;
    Locate(Span(k, base) + o, base);
    hide Span;
    if q < k {
      SpanGap(q, k, base);
    } else if q > k {
      SpanGap(k, q, base);
    }
  }

  // A position below the end of n blocks lies in one of them.
  lemma InBlocks(k: nat, o: nat, n: nat, base: nat)
    requires o < base
    ensures Span(k, base) + o < Span(n, base) <==> k < n
    ensures Span(k, base) + o == Span(n, base) ==> k == n && o == 0
  {
    hide Span;
    if k < n {
      SpanGap(k, n, base);
    } else if n < k {
      SpanGap(n, k, base);
    }
  }

  // How many more blocks of base bytes it takes to have room for n bytes when there is
  // room for free.
  function MoreBlocks(free: nat, n: nat, base: nat): nat
    requires base > 0
  {
    if free >= n then 0 else (n - free + base - 1) / base
  }

  function Growth(free: nat, n: nat, base: nat): nat
    requires base > 0
  {
    Span(MoreBlocks(free, n, base), base)
  }

  // It is the least number that suffices.
  lemma MoreBlocksLeast(free: nat, n: nat, base: nat, k: nat)
    requires base > 0
    ensures free + Span(k, base) >= n <==> k >= MoreBlocks(free, n, base)
  {
    if free < n {
      var m := n - free + base - 1;
      Locate(m, base);
      var q := m / base;
      hide Span;
      if k < q {
        SpanGap(k, q, base);
      } else if q < k {
        SpanGap(q, k, base);
      }
    }
  }

  lemma NoGrowth(free: nat, base: nat)
    requires base > 0
    ensures Growth(free, 0, base) == 0
  {
  }

  // So room is made for no more than a part of the last block.
  lemma GrowthBelow(capacity: nat, position: nat, size: nat, n: nat, base: nat)
    requires base > 0 && n > 0 && position <= size <= capacity < base + if size == 0 then 1 else size
    ensures capacity + Growth(capacity - position, n, base) < base + if position + n > size then position + n else size
  {
    var free := capacity - position;
    if free < n {
      MoreBlocksLeast(free, n, base, MoreBlocks(free, n, base) - 1);
      var q := MoreBlocks(free, n, base);
      SpanGap(q - 1, q, base);
    }
  }

  lemma OverwriteTwice(m: Octets, p: nat, a: Octets, b: Octets)
    requires p + |a| + |b| <= |m|
    ensures Overwrite(Overwrite(m, p, a), p + |a|, b) == Overwrite(m, p, a + b)
  {
  }

  lemma OverwriteNothing(m: Octets, p: nat)
    requires p <= |m|
    ensures Overwrite(m, p, []) == m
  {
  }

  // Writing b at p into a string that grows if it must.
  function Spliced(s: Octets, p: nat, b: Octets): Octets
    requires p <= |s|
  {
    s[..p] + b + if p + |b| <= |s| then s[p + |b|..] else []
  }

  lemma SplicedNothing(s: Octets, p: nat)
    requires p <= |s|
    ensures Spliced(s, p, []) == s
  {
  }

  lemma SplicedLength(s: Octets, p: nat, b: Octets)
    requires p <= |s|
    ensures |Spliced(s, p, b)| == if p + |b| <= |s| then |s| else p + |b|
  {
  }

  lemma SplicedTwice(s: Octets, p: nat, a: Octets, b: Octets)
    requires p <= |s|
    ensures |Spliced(s, p, a)| >= p + |a|
    ensures Spliced(Spliced(s, p, a), p + |a|, b) == Spliced(s, p, a + b)
  {
  }

  // ---- Slices ------------------------------------------------------------------------------

  // An iovec: a piece of one block.
  datatype Slice = Slice(data: array<Octet>, at: nat, len: nat)

  // ss are nonempty pieces of the blocks, in order, that make up the positions from
  // from to to.
  ghost predicate Covers(spine: seq<Block>, base: nat, from: nat, ss: seq<Slice>, to: nat)
    decreases |ss|
  {
    if ss == [] then from == to
    else
      var s := ss[|ss| - 1];
      && 0 < s.len <= to - from && s.at + s.len <= base
      && (var p: nat := to - s.len;
          (exists k: nat :: k < |spine| && IsAt(spine, base, s, k, p)) && Covers(spine, base, from, ss[..|ss| - 1], p))
  }

  ghost predicate IsAt(spine: seq<Block>, base: nat, s: Slice, k: nat, p: nat)
    requires k < |spine|
  {
    s.data == spine[k].data && p == Span(k, base) + s.at
  }

  lemma CoversNothing(spine: seq<Block>, base: nat, p: nat)
    ensures Covers(spine, base, p, [], p)
  {
  }

  lemma CoversMore(spine: seq<Block>, base: nat, from: nat, ss: seq<Slice>, to: nat, k: nat, s: Slice)
    requires Covers(spine, base, from, ss, to) && from <= to
    requires k < |spine| && IsAt(spine, base, s, k, to) && 0 < s.len && s.at + s.len <= base
    ensures Covers(spine, base, from, ss + [s], to + s.len)
  {
    assert (ss + [s])[..|ss|] == ss;
  }

  // What the slices hold, one after the other.
  function Gathered(ss: seq<Slice>): Octets
    requires forall s <- ss :: s.at + s.len <= s.data.Length
    reads set s <- ss :: s.data
  {
    if ss == [] then []
    else
      var s := ss[|ss| - 1];
      assert s in ss && forall t <- ss[..|ss| - 1] :: t in ss;
      Gathered(ss[..|ss| - 1]) + s.data[s.at..s.at + s.len]
  }

  // They hold the bytes of those positions.
  lemma {:induction false} GatheredIs(spine: seq<Block>, base: nat, from: nat, ss: seq<Slice>, to: nat)
    requires Linked(spine, base) && Covers(spine, base, from, ss, to) && from <= to <= |Flat(spine)|
    ensures forall s <- ss :: s.at + s.len <= s.data.Length
    ensures Gathered(ss) == Flat(spine)[from..to]
    decreases |ss|
  {
    hide Flat, Span;
    if ss != [] {
      var n := |ss| - 1;
      var s := ss[n];
      var k: nat :| k < |spine| && IsAt(spine, base, s, k, to - s.len);
      GatheredIs(spine, base, from, ss[..n], to - s.len);
      Peek(spine, base, k, s.at, s.len);
      assert ss == ss[..n] + [s];
      SlicesJoin(Flat(spine), from, to - s.len, to);
      assert Gathered(ss) == Gathered(ss[..n]) + s.data[s.at..s.at + s.len];
    }
  }

  lemma SlicesJoin(m: Octets, a: nat, b: nat, c: nat)
    requires a <= b <= c <= |m|
    ensures m[a..b] + m[b..c] == m[a..c]
  {
  }

  // Two slices of one block do not overlap, and an earlier one lies in front.
  lemma {:induction false} SlicesApart(spine: seq<Block>, base: nat, from: nat, ss: seq<Slice>, to: nat, i: nat, j: nat)
    requires Covers(spine, base, from, ss, to) && Apart(spine) && i < j < |ss| && from <= to
    ensures ss[i].data == ss[j].data ==> ss[i].at + ss[i].len <= ss[j].at
    decreases |ss|
  {
    hide Span;
    var n := |ss| - 1;
    if j < n {
      SlicesApart(spine, base, from, ss[..n], to - ss[n].len, i, j);
    } else {
      var k: nat :| k < |spine| && IsAt(spine, base, ss[n], k, to - ss[n].len);
      SliceInFront(spine, base, from, ss[..n], to - ss[n].len, i, k);
    }
  }

  lemma {:induction false} SliceInFront(spine: seq<Block>, base: nat, from: nat, ss: seq<Slice>, to: nat,
                                        i: nat, k: nat)
    requires Covers(spine, base, from, ss, to) && Apart(spine) && i < |ss| && k < |spine| && from <= to
    ensures ss[i].data == spine[k].data ==> Span(k, base) + ss[i].at + ss[i].len <= to
    decreases |ss|
  {
    hide Span;
    var n := |ss| - 1;
    if i < n {
      SliceInFront(spine, base, from, ss[..n], to - ss[n].len, i, k);
    } else {
      var l: nat :| l < |spine| && IsAt(spine, base, ss[n], l, to - ss[n].len);
      assert l < k ==> spine[l].data != spine[k].data;
      assert k < l ==> spine[k].data != spine[l].data;
    }
  }

  // What a transfer into the slices does: data fills them from the first on, and may
  // end before they do.
  method Scatter(ghost spine: seq<Block>, ghost base: nat, ghost from: nat, ss: seq<Slice>, ghost to: nat, data: Octets)
    requires Linked(spine, base) && Apart(spine) && Covers(spine, base, from, ss, to)
    requires from + |data| <= to <= |Flat(spine)|
    modifies Arrays(spine)
    ensures Flat(spine) == Overwrite(old(Flat(spine)), from, data)
    decreases |ss|
  {
    hide Flat, Span, Overwrite;
    if ss == [] {
      OverwriteNothing(Flat(spine), from);
      return;
    }
    var n := |ss| - 1;
    var s := ss[n];
    ghost var k: nat :| k < |spine| && IsAt(spine, base, s, k, to - s.len);
    ghost var room := to - s.len - from;
    var total := SlicesLength(ss[..n]);
    LengthIs(spine, base, from, ss[..n], to - s.len);
    var head := if |data| <= total then |data| else total;
    var rest := data[head..];
    assert data[..head] + rest == data;
    ghost var m := Flat(spine);
    Scatter(spine, base, from, ss[..n], to - s.len, data[..head]);
    if rest == [] {
      assert data[..head] == data;
    } else {
      ScatterLast(spine, base, k, s, rest);
      OverwriteTwice(m, from, data[..head], rest);
    }
  }

  method ScatterLast(ghost spine: seq<Block>, ghost base: nat, ghost k: nat, s: Slice, data: Octets)
    requires Linked(spine, base) && Apart(spine) && k < |spine| && s.data == spine[k].data && s.at + |data| <= base
    modifies s.data
    ensures Span(k, base) + s.at + |data| <= |old(Flat(spine))|
    ensures Flat(spine) == Overwrite(old(Flat(spine)), Span(k, base) + s.at, data)
  {
    hide Flat, Overwrite;
    ApartFrom(spine, k);
    FlatAround(spine, base, k);
    ghost var before, m, after := Flat(spine[..k]), s.data[..], Flat(spine[k + 1..]);
    Fill(s.data, s.at, data);
    FlatAround(spine, base, k);
    assert Flat(spine[..k]) == before && Flat(spine[k + 1..]) == after;
    OverwriteInside(before, m, after, s.at, data);
  }

  function SlicesLength(ss: seq<Slice>): nat {
    if ss == [] then 0 else SlicesLength(ss[..|ss| - 1]) + ss[|ss| - 1].len
  }

  lemma {:induction false} LengthIs(spine: seq<Block>, base: nat, from: nat, ss: seq<Slice>, to: nat)
    requires Covers(spine, base, from, ss, to) && from <= to
    ensures SlicesLength(ss) == to - from
    decreases |ss|
  {
    if ss != [] {
      LengthIs(spine, base, from, ss[..|ss| - 1], to - ss[|ss| - 1].len);
    }
  }

  datatype ReadResult = Data(bytes: Octets) | OutOfRange | NullBlock

  class ByteArray {
    const baseSize: nat
    const root: Block
    var position: nat
    var capacity: nat
    var size: nat
    var cur: Block?
    ghost var spine: seq<Block>

    // The block that holds position p, or null at the capacity.
    ghost function BlockAt(p: nat): Block?
      requires baseSize > 0
      reads this`spine
    {
      if p / baseSize < |spine| then spine[p / baseSize] else null
    }

    ghost predicate ListOk()
      reads this, spine
    {
      Linked(spine, baseSize) && Apart(spine) && spine != [] && spine[0] == root
      && capacity == Span(|spine|, baseSize)
    }

    // The cursor's block is the one of its position.
    ghost predicate Valid()
      reads this, spine
    {
      ListOk() && position <= size <= capacity && cur == BlockAt(position)
    }

    // Only the last block has room, and it has been begun if it is not the first.
    ghost predicate Tight()
      reads this
    {
      capacity < baseSize + if size == 0 then 1 else size
    }

    // All the memory, and the part of it that counts as written.
    ghost function Memory(): Octets
      reads this, Arrays(spine)
    {
      Flat(spine)
    }

    ghost function Contents(): (s: Octets)
      requires ListOk() && size <= capacity
      reads this, spine, Arrays(spine)
      ensures |s| == size
    {
      FlatLength(spine, baseSize);
      Memory()[..size]
    }

    constructor (baseSize: nat)
      requires baseSize > 0
      ensures Valid() && this.baseSize == baseSize && capacity == baseSize && size == 0 && position == 0
      ensures fresh(spine) && fresh(Arrays(spine))
    {
      this.baseSize, position, capacity, size := baseSize, 0, baseSize, 0;
      var block := new Block(baseSize);
      root, cur, spine := block, block, [block];
    }

    // One more block behind the last one.
    method Extend(tail: Block) returns (b: Block)
      requires ListOk() && tail == spine[|spine| - 1]
      modifies this`capacity, this`spine, tail`next
      ensures ListOk() && spine == old(spine) + [b] && capacity == old(capacity) + baseSize
      ensures fresh(b) && fresh(b.data)
      ensures old(Memory()) <= Memory()
    {
      hide Flat, Span;
      ghost var arrays := Arrays(spine);
      assert forall a <- arrays :: allocated(a);
      b := new Block(baseSize);
      assert Arrays(old(spine)) == arrays && b.data !in arrays;
      assert Flat(old(spine)) == old(Flat(spine));
      SpanNext(|spine|, baseSize);
      tail.next := b;
      spine := spine + [b];
      capacity := capacity + baseSize;
      FlatAppend(old(spine), [b]);
      assert Flat(old(spine)) == old(Flat(spine));
    }

    // Changes of the cursor leave the memory alone.
    lemma NoArray()
      ensures forall a: object | a in Arrays(spine) :: a != this
    {
    }

    // New blocks may have been added behind those there were.
    twostate predicate Grew()
      reads this
    {
      old(spine) <= spine && forall i :: |old(spine)| <= i < |spine| ==> fresh(spine[i]) && fresh(spine[i].data)
    }

    twostate predicate Extended()
      reads this, spine, Arrays(spine)
    {
      Grew() && old(Memory()) <= Memory()
    }

    lemma BaseSize()
      requires ListOk()
      ensures baseSize > 0 && forall b <- spine :: b.data.Length == baseSize
    {
    }

    lemma MemorySize()
      requires ListOk()
      ensures |Memory()| == capacity
    {
      FlatLength(spine, baseSize);
    }

    method LastBlock() returns (tail: Block)
      requires ListOk()
      ensures tail == spine[|spine| - 1]
    {
      tail := root;
      ghost var i := 0;
      while tail.next != null
        invariant i < |spine| && tail == spine[i]
        decreases |spine| - i
      {
        tail := tail.next;
        i := i + 1;
      }
    }

    // Room for n more bytes at the position, with the least number of new blocks.
    method AddCapacity(n: nat)
      requires Valid()
      modifies this`capacity, this`cur, this`spine, spine
      ensures Valid() && Extended() && capacity - position >= n
      ensures capacity == old(capacity) + Growth(old(capacity) - position, n, baseSize)
    {
      hide Flat, MoreBlocks, Apart, Span;
      var free := capacity - position;
      MoreBlocksLeast(free, n, baseSize, MoreBlocks(free, n, baseSize));
      MoreBlocksLeast(free, n, baseSize, 0);
      SpanNext(0, baseSize);
      if n == 0 || free >= n {
        return;
      }
      var count := MoreBlocks(free, n, baseSize);
      Append(count);
    }

    method Append(count: nat)
      requires Valid() && count > 0
      modifies this`capacity, this`cur, this`spine, spine
      ensures Valid() && Extended() && capacity == old(capacity) + Span(count, baseSize)
    {
      hide Flat, Apart, Span;
      ghost var n := |spine|;
      var atEnd := capacity == position;
      Locate(position, baseSize);
      InBlocks(position / baseSize, position % baseSize, n, baseSize);
      ghost var k := position / baseSize;
      var first := AddBlocks(count);
      if atEnd {
        NoArray();
        cur := first;
        assert k == n;
      } else {
        assert k < n && spine[k] == old(spine)[k];
      }
    }

    method AddBlocks(count: nat) returns (first: Block)
      requires ListOk() && count > 0
      modifies this`capacity, this`spine, spine
      ensures ListOk() && Extended() && capacity == old(capacity) + Span(count, baseSize)
      ensures |spine| > |old(spine)| && first == spine[|old(spine)|]
    {
      hide Flat, Apart, Span, Linked;
      SpanNext(0, baseSize);
      assert forall a <- Arrays(spine) :: allocated(a);
      var tail := LastBlock();
      tail := Extend(tail);
      first := tail;
      SpanNext(0, baseSize);
      var i := 1;
      while i < count
        invariant 1 <= i <= count && ListOk() && Extended() && |spine| > |old(spine)| && first == spine[|old(spine)|]
        invariant tail == spine[|spine| - 1] && fresh(tail)
        invariant capacity == old(capacity) + Span(i, baseSize)
      {
        SpanNext(i, baseSize);
        tail := Extend(tail);
        i := i + 1;
      }
    }

    // Where the copying loops stand: at offset npos of block k, or at no block at all
    // when nothing is left to copy.
    ghost predicate Stands(k: nat, npos: nat, left: nat)
      reads this, spine
    {
      && ListOk()
      && (left > 0 ==> k < |spine| && cur == spine[k] && npos < baseSize && position == Span(k, baseSize) + npos)
      && (left == 0 ==> position <= capacity && cur == BlockAt(position))
    }

    // Past the bytes of block k that were copied.
    lemma Moves(k: nat, npos: nat, n: nat, left: nat)
      requires Linked(spine, baseSize) && capacity == Span(|spine|, baseSize)
      requires k < |spine| && npos < baseSize && 0 < n <= baseSize - npos && n <= left
      requires Span(k, baseSize) + npos + left <= capacity
      ensures n < baseSize - npos ==> BlockAt(Span(k, baseSize) + npos + n) == spine[k]
      ensures n == baseSize - npos ==> BlockAt(Span(k, baseSize) + npos + n) == spine[k].next
                                       && Span(k, baseSize) + npos + n == Span(k + 1, baseSize)
      ensures n == baseSize - npos && n < left ==> k + 1 < |spine| && spine[k].next == spine[k + 1]
    {
      hide Span;
      SpanNext(k, baseSize);
      InBlocks(k + 1, 0, |spine|, baseSize);
      if n < baseSize - npos {
        DivOf(k, npos + n, baseSize);
      } else {
        DivOf(k + 1, 0, baseSize);
      }
    }

    // One memcpy of write: s goes behind the bytes written so far.
    method Put(ghost k: nat, at: nat, s: Octets, ghost m: Octets, ghost p: nat, ghost done: Octets)
      requires ListOk() && k < |spine| && cur == spine[k] && at + |s| <= baseSize
      requires p + |done| == Span(k, baseSize) + at && p + |done| + |s| <= |m|
      requires Memory() == Overwrite(m, p, done)
      modifies Arrays(spine)
      ensures Memory() == Overwrite(m, p, done + s)
    {
      hide Flat, Overwrite, Span;
      assert cur.data in Arrays(spine);
      Poke(spine, baseSize, k, cur, at, s);
      OverwriteTwice(m, p, done, s);
    }

    // The rest of what is to be written fits into block k.
    method CopyLast(ghost k: nat, npos: nat, s: Octets, ghost m: Octets, ghost p: nat, ghost done: Octets)
      requires Stands(k, npos, |s|) && s != [] && |s| <= baseSize - npos && position + |s| <= capacity
      requires p + |done| == position && p + |done| + |s| <= |m| && Memory() == Overwrite(m, p, done)
      modifies this`position, this`cur, Arrays(spine)
      ensures Stands(k, npos, 0) && position == old(position) + |s| && Memory() == Overwrite(m, p, done + s)
    {
      hide Flat, Overwrite, Span;
      Moves(k, npos, |s|, |s|);
      Put(k, npos, s, m, p, done);
      NoArray();
      if cur.data.Length == npos + |s| {
        cur := cur.next;
      }
      position := position + |s|;
    }

    // It does not, and fills the block.
    method CopyFull(ghost k: nat, npos: nat, s: Octets, ghost left: nat,
                    ghost m: Octets, ghost p: nat, ghost done: Octets)
      requires Stands(k, npos, left) && |s| == baseSize - npos < left && position + left <= capacity
      requires p + |done| == position && p + |done| + |s| <= |m| && Memory() == Overwrite(m, p, done)
      modifies this`position, this`cur, Arrays(spine)
      ensures Stands(k + 1, 0, left - |s|) && position == old(position) + |s| && Memory() == Overwrite(m, p, done + s)
    {
      hide Flat, Overwrite, Span;
      Moves(k, npos, |s|, left);
      Put(k, npos, s, m, p, done);
      NoArray();
      position := position + |s|;
      cur := cur.next;
    }

    // The loop of write, once there is room.
    method CopyIn(buf: Octets)
      requires Valid() && 0 < |buf| <= capacity - position
      modifies this`position, this`cur, Arrays(spine)
      ensures ListOk() && position == old(position) + |buf| <= capacity && cur == BlockAt(position)
      ensures |old(Memory())| == capacity && Memory() == Overwrite(old(Memory()), old(position), buf)
    {
      hide Flat, Overwrite, Span;
      Locate(position, baseSize);
      InBlocks(position / baseSize, position % baseSize, |spine|, baseSize);
      FlatLength(spine, baseSize);
      OverwriteNothing(Memory(), position);
      ghost var k: nat := position / baseSize;
      var npos: nat := position % baseSize;
      var ncap := cur.data.Length - npos;
      var bpos: nat, left: nat := 0, |buf|;
      while left > 0
        invariant left + bpos == |buf| && Stands(k, npos, left) && position == old(position) + bpos
        invariant left > 0 ==> ncap == baseSize - npos
        invariant Memory() == Overwrite(old(Memory()), old(position), buf[..bpos])
        decreases left
      {
        var n := if ncap >= left then left else ncap;
        var s := buf[bpos..bpos + n];
        ghost var done := buf[..bpos];
        assert done + s == buf[..bpos + n];
        if ncap >= left {
          CopyLast(k, npos, s, old(Memory()), old(position), done);
          bpos := bpos + left;
          left := 0;
        } else {
          CopyFull(k, npos, s, left, old(Memory()), old(position), done);
          bpos := bpos + ncap;
          left := left - ncap;
          ncap := cur.data.Length;
          npos := 0;
          k := k + 1;
        }
      }
      assert buf[..bpos] == buf;
    }

    // write overwrites the contents at the position and extends them past their end, and
    // adds no more blocks than it takes.
    method Write(buf: Octets)
      requires Valid()
      modifies this, spine, Arrays(spine)
      ensures Valid() && Grew()
      ensures position == old(position) + |buf| && Contents() == Spliced(old(Contents()), old(position), buf)
      ensures capacity == old(capacity) + Growth(old(capacity) - old(position), |buf|, baseSize)
    {
      hide Flat, Overwrite, Span, Apart, Growth, Linked, Spliced;
      MemorySize();
      BaseSize();
      if buf == [] {
        NoGrowth(capacity - position, baseSize);
        SplicedNothing(Contents(), position);
        return;
      }
      ghost var m0 := Memory();
      AddCapacity(|buf|);
      ghost var m1 := Memory();
      CopyIn(buf);
      SplicedIs(m0, m1, size, position - |buf|, buf);
      RaiseSize();
    }

    method RaiseSize()
      requires ListOk() && position <= capacity && size <= capacity && cur == BlockAt(position)
      modifies this`size
      ensures Valid() && Memory() == old(Memory())
      ensures size == if position > old(size) then position else old(size)
    {
      hide Flat, Span, Apart, Linked;
      NoArray();
      if position > size {
        size := position;
      }
    }

    method Read(n: nat) returns (r: ReadResult)
      requires Valid()
      modifies this`position, this`cur
      ensures Valid()
      ensures r.OutOfRange? <==> n > size - old(position)
      ensures r.NullBlock? <==> n == 0 && old(position) == capacity
      ensures !r.Data? ==> position == old(position)
      ensures r.Data? ==> position == old(position) + n && r.bytes == Contents()[old(position)..position]
      ensures Contents() == old(Contents())
    {
      hide Flat, Span, Apart, Linked;
      MemorySize();
      BaseSize();
      if n > size - position {
        return OutOfRange;
      }
      Locate(position, baseSize);
      InBlocks(position / baseSize, position % baseSize, |spine|, baseSize);
      if cur == null {
        return NullBlock;
      }
      ghost var m, p := Memory(), position;
      var buf := CopyAll(n);
      assert m[..size][p..position] == m[p..position];
      r := Data(buf);
    }

    // The loop of read.
    method CopyAll(n: nat) returns (buf: Octets)
      requires Valid() && cur != null && n <= size - position
      modifies this`position, this`cur
      ensures Valid() && position == old(position) + n && |Memory()| == capacity && Memory() == old(Memory())
      ensures buf == Memory()[old(position)..position]
    {
      hide Flat, Span, Apart, Linked;
      MemorySize();
      BaseSize();
      Locate(position, baseSize);
      InBlocks(position / baseSize, position % baseSize, |spine|, baseSize);
      ghost var k: nat := position / baseSize;
      var npos: nat := position % baseSize;
      var ncap := cur.data.Length - npos;
      ghost var m, p := Memory(), position;
      var left: nat := n;
      buf := [];
      while left > 0
        invariant left + |buf| == n && Stands(k, npos, left) && position == p + |buf|
        invariant left > 0 ==> ncap == baseSize - npos
        invariant buf == m[p..position] && Memory() == m
        decreases left
      {
        var c := if ncap >= left then left else ncap;
        SlicesJoin(m, p, position, position + c);
        var chunk := CopyOut(k, npos, c, left);
        buf := buf + chunk;
        left := left - c;
        if left > 0 {
          ncap := cur.data.Length;
          npos := 0;
          k := k + 1;
        }
      }
    }

    // One memcpy of read, and the move of the cursor behind it.
    method CopyOut(ghost k: nat, npos: nat, m: nat, left: nat) returns (chunk: Octets)
      requires Stands(k, npos, left) && 0 < m <= left && position + left <= capacity
      requires m == if baseSize - npos >= left then left else baseSize - npos
      modifies this`position, this`cur
      ensures position == old(position) + m && |Memory()| == capacity && Memory() == old(Memory())
      ensures chunk == Memory()[old(position)..position] && ListOk()
      ensures if m == left then Stands(k, npos, 0) else Stands(k + 1, 0, left - m)
    {
      hide Flat, Span, Apart;
      MemorySize();
      Moves(k, npos, m, left);
      Peek(spine, baseSize, k, npos, m);
      NoArray();
      chunk := cur.data[npos..npos + m];
      position := position + m;
      if m < left || cur.data.Length == npos + m {
        cur := cur.next;
      }
    }

    method SetPosition(v: nat) returns (ok: bool)
      requires Valid()
      modifies this`position, this`size, this`cur
      ensures Valid() && (ok <==> v <= capacity)
      ensures !ok ==> position == old(position) && size == old(size)
      ensures ok ==> position == v && size == if v > old(size) then v else old(size)
      ensures Memory() == old(Memory())
    {
      hide Flat, Span, Linked, Apart;
      NoArray();
      if v > capacity {
        return false;
      }
      var block := FindBlock(v);
      position := v;
      if position > size {
        size := position;
      }
      cur := block;
      ok := true;
    }

    // The walk from the root to the block of a position.
    method FindBlock(v: nat) returns (block: Block?)
      requires ListOk() && v <= capacity
      ensures block == BlockAt(v)
    {
      hide Flat, Span, Apart;
      block := root;
      ghost var k: nat := 0;
      var w: nat := v;
      SpanNext(0, baseSize);
      while w > block.data.Length
        invariant k < |spine| && block == spine[k] && v == Span(k, baseSize) + w
        decreases w
      {
        SpanNext(k, baseSize);
        w := w - block.data.Length;
        block := block.next;
        k := k + 1;
      }
      SpanNext(k, baseSize);
      if w == block.data.Length {
        DivOf(k + 1, 0, baseSize);
        block := block.next;
      } else {
        DivOf(k, w, baseSize);
      }
    }

    // The loop of getReadBuffers and getWriteBuffers.
    method SlicesFrom(len: nat) returns (ss: seq<Slice>)
      requires Valid() && len <= capacity - position
      ensures Memory() == old(Memory())
      ensures Covers(spine, baseSize, position, ss, position + len)
    {
      hide Flat, Span, Apart, Covers;
      CoversNothing(spine, baseSize, position);
      ss := [];
      if len == 0 {
        return;
      }
      Locate(position, baseSize);
      InBlocks(position / baseSize, position % baseSize, |spine|, baseSize);
      ghost var k: nat := position / baseSize;
      var npos: nat := position % baseSize;
      var ncap := cur.data.Length - npos;
      var block := cur;
      var left: nat := len;
      while left > 0
        invariant left <= len && Memory() == old(Memory())
        invariant Covers(spine, baseSize, position, ss, position + (len - left))
        invariant left > 0 ==> k < |spine| && block == spine[k] && npos < baseSize && ncap == baseSize - npos
                               && Span(k, baseSize) + npos == position + (len - left)
        decreases left
      {
        var n := if ncap >= left then left else ncap;
        Moves(k, npos, n, left);
        CoversMore(spine, baseSize, position, ss, position + (len - left), k, Slice(block.data, npos, n));
        ss := ss + [Slice(block.data, npos, n)];
        left := left - n;
        if left > 0 {
          block := block.next;
          ncap := block.data.Length;
          npos := 0;
          k := k + 1;
        }
      }
    }

    // The slices of the next len bytes to read, or of all there are if those are fewer.
    method GetReadBuffers(len: nat) returns (ss: seq<Slice>, total: nat)
      requires Valid()
      ensures Memory() == old(Memory()) && total == (if len > size - position then size - position else len)
      ensures Covers(spine, baseSize, position, ss, position + total)
    {
      hide Flat, Span, Apart, Covers, Linked;
      total := if len > size - position then size - position else len;
      ss := SlicesFrom(total);
    }

    // The slices for the next len bytes to write, after making room for them.
    method GetWriteBuffers(len: nat) returns (ss: seq<Slice>)
      requires Valid()
      modifies this`capacity, this`cur, this`spine, spine
      ensures Valid() && Extended() && position + len <= capacity
      ensures Covers(spine, baseSize, position, ss, position + len)
    {
      hide Flat, Span, Apart, Covers, Linked;
      AddCapacity(len);
      ss := SlicesFrom(len);
    }

    method Clear()
      requires Valid()
      modifies this, root
      ensures Valid() && position == 0 && size == 0 && capacity == baseSize && Contents() == []
      ensures spine == [root]
    {
      hide Flat, Span;
      SpanNext(0, baseSize);
      DivOf(0, 0, baseSize);
      position, size, capacity := 0, 0, baseSize;
      cur := root;
      root.next := null;
      spine := [root];
    }
  }

  // The contents after a write, from the memory before it, after it grew and at the end.
  lemma SplicedIs(m0: Octets, m1: Octets, size: nat, p: nat, buf: Octets)
    requires m0 <= m1 && p <= size <= |m0| && p + |buf| <= |m1|
    ensures var size' := if p + |buf| > size then p + |buf| else size;
      size' <= |m1| && Overwrite(m1, p, buf)[..size'] == Spliced(m0[..size], p, buf)
  {
  }
}
