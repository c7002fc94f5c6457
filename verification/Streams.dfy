// SocketStream's transfers to and from a ByteArray, and the loops of Stream that
// repeat them until a fixed number of bytes has moved. The socket may transfer fewer
// bytes than asked for.
module Streams {
  import opened Blocks
  import opened ByteArrays

  // SocketStream::read: what arrives is put into the write buffers, and the position
  // moves behind it. rt is what recv returns.
  method Receive(ba: ByteArray, length: nat, connected: bool, rt: int, arrived: Octets) returns (r: int)
    requires ba.Valid() && rt <= length && |arrived| == if rt > 0 then rt else 0
    modifies ba, ba.spine, Arrays(ba.spine)
    ensures ba.Valid() && ba.Grew() && r == if connected then rt else -1
    ensures r <= 0 ==> ba.position == old(ba.position) && ba.Contents() == old(ba.Contents())
    ensures r > 0 ==> ba.position == old(ba.position) + r
                      && ba.Contents() == Spliced(old(ba.Contents()), old(ba.position), arrived)
  {
    hide Flat, Overwrite, Span, Apart, Linked, Covers, Spliced;
    if !connected {
      return -1;
    }
    ghost var m0, size0 := ba.Memory(), ba.size;
    ba.MemorySize();
    var ss := ba.GetWriteBuffers(length);
    ghost var m1 := ba.Memory();
    ba.MemorySize();
    Scatter(ba.spine, ba.baseSize, ba.position, ss, ba.position + length, arrived);
    SplicedIs(m0, m1, size0, ba.position, arrived);
    if rt > 0 {
      var _ := ba.SetPosition(ba.position + rt);
    } else {
      SplicedNothing(m0[..size0], ba.position);
    }
    r := rt;
  }

  lemma FirstOf<T>(m: seq<T>, p: nat, t: nat, k: nat, n: nat)
    requires k <= t && p + t <= n <= |m|
    ensures m[p..p + t][..k] == m[..n][p..p + k]
  {
  }

  // SocketStream::write: what is sent is taken from the read buffers.
  method Send(ba: ByteArray, length: nat, connected: bool, rt: int) returns (r: int, sent: Octets)
    requires ba.Valid() && rt <= length && rt <= ba.size - ba.position
    modifies ba
    ensures ba.Valid() && ba.spine == old(ba.spine) && ba.Contents() == old(ba.Contents())
    ensures r == if connected then rt else -1
    ensures r <= 0 ==> ba.position == old(ba.position) && sent == []
    ensures r > 0 ==> ba.position == old(ba.position) + r && sent == ba.Contents()[old(ba.position)..ba.position]
  {
    hide Flat, Span, Apart, Linked, Covers, Gathered;
    sent := [];
    if !connected {
      return -1, [];
    }
    var ss, total := ba.GetReadBuffers(length);
    ba.MemorySize();
    ghost var m, p := ba.Memory(), ba.position;
    GatheredIs(ba.spine, ba.baseSize, p, ss, p + total);
    assert Gathered(ss) == m[p..p + total];
    if rt > 0 {
      sent := Gathered(ss)[..rt];
      FirstOf(m, p, total, rt, ba.size);
      var _ := ba.SetPosition(ba.position + rt);
    }
    r := rt;
  }

  // What the socket returns for a request of at most length bytes, as the environment
  // decides: rts are its results, cut down to what was asked for, and 0 after them.
  function Transferred(rts: seq<int>, i: nat, length: nat): int {
    if i >= |rts| then 0 else if rts[i] > length then length else rts[i]
  }

  // Stream::readFixSize: whatever the sizes of the partial transfers, if it succeeds the
  // next length bytes of the stream have been written at the starting position, and if
  // it fails, the bytes that had arrived.
  method ReadFixSize(ba: ByteArray, length: nat, stream: Octets, rts: seq<int>) returns (r: int, ghost moved: nat)
    requires ba.Valid() && length <= |stream|
    modifies ba, ba.spine, Arrays(ba.spine)
    ensures ba.Valid() && ba.Grew() && moved <= length && (r == length == moved || r <= 0)
    ensures ba.position == old(ba.position) + moved
    ensures ba.Contents() == Spliced(old(ba.Contents()), old(ba.position), stream[..moved])
  {
    hide Flat, Overwrite, Span, Apart, Linked, Spliced;
    var left: nat := length;
    var i := 0;
    SplicedNothing(ba.Contents(), ba.position);
    while left > 0
      invariant left <= length && ba.Valid() && ba.Grew()
      invariant ba.position == old(ba.position) + (length - left)
      invariant ba.Contents() == Spliced(old(ba.Contents()), old(ba.position), stream[..length - left])
    {
      var done := length - left;
      var len := Transferred(rts, i, left);
      var arrived := stream[done..done + if len > 0 then len else 0];
      SplicedTwice(old(ba.Contents()), old(ba.position), stream[..done], arrived);
      assert stream[..done] + arrived == stream[..done + |arrived|];
      len := Receive(ba, left, true, len, arrived);
      if len <= 0 {
        return len, done;
      }
      left := left - len;
      i := i + 1;
    }
    r, moved := length, length;
  }

  // Stream::writeFixSize: the bytes sent are the contents from the starting position on.
  method WriteFixSize(ba: ByteArray, length: nat, rts: seq<int>) returns (r: int, sent: Octets)
    requires ba.Valid()
    modifies ba
    ensures ba.Valid() && ba.spine == old(ba.spine) && ba.Contents() == old(ba.Contents())
    ensures (r == length == |sent|) || r <= 0
    ensures ba.position == old(ba.position) + |sent| && sent == ba.Contents()[old(ba.position)..ba.position]
  {
    hide Flat, Overwrite, Span, Apart, Linked;
    var left: nat := length;
    var i := 0;
    sent := [];
    while left > 0
      invariant left <= length && ba.Valid() && ba.spine == old(ba.spine) && ba.Contents() == old(ba.Contents())
      invariant |sent| == length - left && ba.position == old(ba.position) + |sent|
      invariant sent == ba.Contents()[old(ba.position)..ba.position]
    {
      var len := Transferred(rts, i, if left <= ba.size - ba.position then left else ba.size - ba.position);
      var bytes;
      len, bytes := Send(ba, left, true, len);
      if len <= 0 {
        return len, sent;
      }
      sent := sent + bytes;
      left := left - len;
      i := i + 1;
    }
    r := length;
  }
}
