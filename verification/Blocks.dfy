// The linked blocks of bytearray.cc and the flat memory that they make up.
module Blocks {
  type Octet = n: int | 0 <= n < 256
  type Octets = seq<Octet>

  class Block {
    const data: array<Octet>
    var next: Block?

    constructor (size: nat)
      ensures fresh(data) && data.Length == size && next == null
    {
      data := new Octet[size];
      next := null;
    }
  }

  // The bytes of k blocks.
  function Span(k: nat, base: nat): nat { k * base }

  lemma SpanNext(k: nat, base: nat)
    ensures Span(k + 1, base) == Span(k, base) + base && Span(0, base) == 0
  {
  }

  // The blocks of a list from the root on, each of base bytes.
  ghost predicate Linked(spine: seq<Block>, base: nat)
    reads spine
  {
    && base > 0
    && (forall i :: 0 <= i < |spine| ==> spine[i].data.Length == base)
    && (forall i {:trigger spine[i].next} :: 0 <= i < |spine| ==>
         spine[i].next == if i + 1 < |spine| then spine[i + 1] else null)
  }

  ghost predicate Apart(spine: seq<Block>) {
    forall i, j :: 0 <= i < j < |spine| ==> spine[i].data != spine[j].data
  }

  ghost function Arrays(spine: seq<Block>): set<array<Octet>> {
    set b <- spine :: b.data
  }

  // The memory of the blocks, one after the other.
  ghost function Flat(spine: seq<Block>): Octets
    reads Arrays(spine)
  {
    if spine == [] then []
    else
      assert spine[0].data in Arrays(spine);
      assert forall a <- Arrays(spine[1..]) :: a in Arrays(spine);
      spine[0].data[..] + Flat(spine[1..])
  }

  function Overwrite(m: Octets, at: nat, s: Octets): Octets
    requires at + |s| <= |m|
  {
    m[..at] + s + m[at + |s|..]
  }

  // memcpy into a block.
  method Fill(a: array<Octet>, at: nat, s: Octets)
    requires at + |s| <= a.Length
    modifies a
    ensures a[..] == Overwrite(old(a[..]), at, s)
  {
    forall i | 0 <= i < |s| {
      a[at + i] := s[i];
    }
  }

  lemma {:induction false} FlatAppend(a: seq<Block>, b: seq<Block>)
    ensures Flat(a + b) == Flat(a) + Flat(b)
    decreases |a|
  {
    if a == [] {
      assert a + b == b;
    } else {
      FlatAppend(a[1..], b);
      assert (a + b)[0] == a[0] && (a + b)[1..] == a[1..] + b;
    }
  }

  lemma {:induction false} FlatLength(spine: seq<Block>, base: nat)
    requires forall i :: 0 <= i < |spine| ==> spine[i].data.Length == base
    ensures |Flat(spine)| == Span(|spine|, base)
    decreases |spine|
  {
    hide Span;
    SpanNext(if spine == [] then 0 else |spine| - 1, base);
    if spine != [] {
      FlatLength(spine[1..], base);
    }
  }

  // The memory around block k.
  lemma FlatAround(spine: seq<Block>, base: nat, k: nat)
    requires k < |spine| && forall i :: 0 <= i < |spine| ==> spine[i].data.Length == base
    ensures Flat(spine) == Flat(spine[..k]) + spine[k].data[..] + Flat(spine[k + 1..])
    ensures |Flat(spine[..k])| == Span(k, base) && |Flat(spine)| == Span(|spine|, base)
  {
    FlatAppend(spine[..k], spine[k..]);
    assert spine[..k] + spine[k..] == spine;
    assert spine[k..][1..] == spine[k + 1..];
    FlatLength(spine[..k], base);
    FlatLength(spine, base);
  }

  // The bytes of a block are those of the memory at its place.
  lemma Peek(spine: seq<Block>, base: nat, k: nat, at: nat, n: nat)
    requires k < |spine| && at + n <= base && forall i :: 0 <= i < |spine| ==> spine[i].data.Length == base
    ensures Span(k, base) + at + n <= |Flat(spine)|
    ensures spine[k].data[at..at + n] == Flat(spine)[Span(k, base) + at..Span(k, base) + at + n]
  {
    hide Flat, Span;
    FlatAround(spine, base, k);
    SliceInside(Flat(spine[..k]), spine[k].data[..], Flat(spine[k + 1..]), at, n);
    assert spine[k].data[at..at + n] == spine[k].data[..][at..at + n];
  }

  lemma SliceInside(a: Octets, m: Octets, b: Octets, at: nat, n: nat)
    requires at + n <= |m|
    ensures (a + m + b)[|a| + at..|a| + at + n] == m[at..at + n]
  {
  }

  lemma ApartFrom(spine: seq<Block>, k: nat)
    requires Apart(spine) && k < |spine|
    ensures spine[k].data !in Arrays(spine[..k]) && spine[k].data !in Arrays(spine[k + 1..])
    ensures spine[k].data in Arrays(spine)
  {
  }

  // Writing into block k overwrites the flat memory at the corresponding place and
  // nothing else.
  method Poke(ghost spine: seq<Block>, ghost base: nat, ghost k: nat, block: Block, at: nat, s: Octets)
    requires Linked(spine, base) && Apart(spine) && k < |spine| && block == spine[k] && at + |s| <= base
    modifies block.data
    ensures Span(|spine|, base) == |old(Flat(spine))| && Span(k, base) + at + |s| <= Span(|spine|, base)
    ensures Flat(spine) == Overwrite(old(Flat(spine)), Span(k, base) + at, s)
  {
    hide Flat, Overwrite;
    ApartFrom(spine, k);
    FlatAround(spine, base, k);
    ghost var before, m, after := Flat(spine[..k]), block.data[..], Flat(spine[k + 1..]);
    Fill(block.data, at, s);
    FlatAround(spine, base, k);
    assert Flat(spine[..k]) == before && Flat(spine[k + 1..]) == after;
    OverwriteInside(before, m, after, at, s);
  }

  lemma OverwriteInside(a: Octets, m: Octets, b: Octets, at: nat, s: Octets)
    requires at + |s| <= |m|
    ensures a + Overwrite(m, at, s) + b == Overwrite(a + m + b, |a| + at, s)
  {
  }
}
