// Typed values written to a ByteArray one after the other and read back.
module TypedStream {
  import opened Bytes
  import opened Blocks
  import opened ByteArrays
  import opened Codec

  // The length in front of a string: two, four or eight bytes, or a varint.
  datatype Prefix = P16 | P32 | P64 | PVarint

  datatype Item =
    | Unsigned(width: nat, u: nat)
    | Signed(width: nat, i: int)
    | Var32(u: nat) | Var64(u: nat)
    | Zigzag32(i: int) | Zigzag64(i: int)
    | Text(prefix: Prefix, bytes: Octets)

  datatype Kind =
    | KUnsigned(width: nat) | KSigned(width: nat)
    | KVar32 | KVar64 | KZigzag32 | KZigzag64
    | KText(prefix: Prefix)

  function KindOf(item: Item): Kind {
    match item
    case Unsigned(w, _) => KUnsigned(w)
    case Signed(w, _) => KSigned(w)
    case Var32(_) => KVar32
    case Var64(_) => KVar64
    case Zigzag32(_) => KZigzag32
    case Zigzag64(_) => KZigzag64
    case Text(p, _) => KText(p)
  }

  predicate WidthOk(w: nat) { w == 1 || w == 2 || w == 4 || w == 8 }

  function Limit(p: Prefix): nat {
    match p case P16 => TWO_16 case P32 => TWO_32 case P64 => TWO_64 case PVarint => TWO_64
  }

  function Width(p: Prefix): nat
    requires !p.PVarint?
  {
    match p case P16 => 2 case P32 => 4 case P64 => 8
  }

  // Values of the types that the write methods take, and strings whose length fits its
  // prefix.
  predicate ItemOk(item: Item) {
    match item
    case Unsigned(w, u) => WidthOk(w) && u < Power256(w)
    case Signed(w, i) => WidthOk(w) && 0 <= 2 * i + Power256(w) && 2 * i < Power256(w)
    case Var32(u) => u < TWO_32
    case Var64(u) => u < TWO_64
    case Zigzag32(i) => InSigned(32, i)
    case Zigzag64(i) => InSigned(64, i)
    case Text(p, bytes) => |bytes| < Limit(p)
  }

  // Two's complement.
  function ToWord(w: nat, i: int): nat
    requires 0 <= 2 * i + Power256(w) && 2 * i < Power256(w)
  {
    if i < 0 then i + Power256(w) else i
  }

  function FromWord(w: nat, u: nat): int {
    if 2 * u < Power256(w) then u else u - Power256(w)
  }

  function EncodePrefix(p: Prefix, n: nat, little: bool): Octets {
    if p.PVarint? then Varint(n) else FixedBytes(Width(p), n, little)
  }

  function Encode(item: Item, little: bool): Octets
    requires ItemOk(item)
  {
    match item
    case Unsigned(w, u) => FixedBytes(w, u, little)
    case Signed(w, i) => FixedBytes(w, ToWord(w, i), little)
    case Var32(u) => Varint(u)
    case Var64(u) => Varint(u)
    case Zigzag32(i) => Varint(EncodeZigzag(32, i))
    case Zigzag64(i) => Varint(EncodeZigzag(64, i))
    case Text(p, bytes) => EncodePrefix(p, |bytes|, little) + bytes
  }

  // A fixed-width integer or a varint at the front of s, and the bytes it takes; none if
  // s is too short.
  function ParseFixed(w: nat, little: bool, s: Octets): Option<(nat, nat)> {
    if |s| < w then None else Some((FromFixed(s[..w], little), w))
  }

  // readUint32 and readUint64: the accumulator has 32 or 64 bits.
  function ParseVarint(s: Octets, wide: bool): (r: Option<(nat, nat)>)
    ensures r.Some? ==> r.value.0 < if wide then TWO_64 else TWO_32
  {
    match FromVarint(s, if wide then 10 else 5, 0, 1)
    case None => None
    case Some((v, n)) => Some((v % (if wide then TWO_64 else TWO_32), n))
  }

  function ParsePrefix(p: Prefix, little: bool, s: Octets): Option<(nat, nat)> {
    if p.PVarint? then ParseVarint(s, true) else ParseFixed(Width(p), little, s)
  }

  function Parse(kind: Kind, little: bool, s: Octets): Option<(Item, nat)> {
    match kind
    case KUnsigned(w) =>
      (match ParseFixed(w, little, s) case None => None case Some((u, n)) => Some((Unsigned(w, u), n)))
    case KSigned(w) =>
      (match ParseFixed(w, little, s) case None => None case Some((u, n)) => Some((Signed(w, FromWord(w, u)), n)))
    case KVar32 => (match ParseVarint(s, false) case None => None case Some((u, n)) => Some((Var32(u), n)))
    case KVar64 => (match ParseVarint(s, true) case None => None case Some((u, n)) => Some((Var64(u), n)))
    case KZigzag32 =>
      (match ParseVarint(s, false)
       case None => None
       case Some((u, n)) => Some((Zigzag32(DecodeZigzag(32, u)), n)))
    case KZigzag64 =>
      (match ParseVarint(s, true)
       case None => None
       case Some((u, n)) => Some((Zigzag64(DecodeZigzag(64, u)), n)))
    case KText(p) =>
      (match ParsePrefix(p, little, s)
       case None => None
       case Some((len, n)) => if n + len > |s| then None else Some((Text(p, s[n..n + len]), n + len)))
  }

  lemma FixedParsed(w: nat, v: nat, little: bool, rest: Octets)
    requires v < Power256(w)
    ensures ParseFixed(w, little, FixedBytes(w, v, little) + rest) == Some((v, w))
  {
    FixedBack(w, v, little);
    assert (FixedBytes(w, v, little) + rest)[..w] == FixedBytes(w, v, little);
  }

  lemma VarintParsed(v: nat, wide: bool, rest: Octets)
    requires v < if wide then TWO_64 else TWO_32
    ensures ParseVarint(Varint(v) + rest, wide) == Some((v, |Varint(v)|))
  {
    hide Varint, FromVarint;
    VarintLengths(v);
    VarintBack(v, rest, if wide then 10 else 5, 0, 1);
  }

  lemma PrefixParsed(p: Prefix, n: nat, little: bool, rest: Octets)
    requires n < Limit(p)
    ensures ParsePrefix(p, little, EncodePrefix(p, n, little) + rest) == Some((n, |EncodePrefix(p, n, little)|))
  {
    if p.PVarint? {
      VarintParsed(n, true, rest);
    } else {
      PowersOf256();
      FixedParsed(Width(p), n, little, rest);
    }
  }

  lemma PowersOf256()
    ensures Power256(2) == TWO_16 && Power256(4) == TWO_32 && Power256(8) == TWO_64
  {
    assert Power256(2) == 256 * Power256(1) && Power256(1) == 256 * Power256(0);
    assert Power256(4) == 256 * Power256(3) && Power256(3) == 256 * Power256(2);
    assert Power256(6) == 256 * Power256(5) && Power256(5) == 256 * Power256(4);
    assert Power256(8) == 256 * Power256(7) && Power256(7) == 256 * Power256(6);
  }

  lemma PowersOf2()
    ensures Power2(32) == TWO_32 && Power2(64) == TWO_64
  {
    hide Power2;
    PowerByte(0);
    PowerByte(8);
    PowerByte(16);
    PowerByte(24);
    PowerByte(32);
    PowerByte(40);
    PowerByte(48);
    PowerByte(56);
  }

  lemma PowerByte(k: nat)
    ensures Power2(k + 8) == 256 * Power2(k) && Power2(0) == 1
  {
    assert Power2(k + 2) == 4 * Power2(k);
    assert Power2(k + 4) == 4 * Power2(k + 2);
    assert Power2(k + 6) == 4 * Power2(k + 4);
  }

  lemma ZigzagParsed(k: nat, v: int, wide: bool, rest: Octets)
    requires InSigned(k, v) && k == if wide then 64 else 32
    ensures var z := EncodeZigzag(k, v); ParseVarint(Varint(z) + rest, wide) == Some((z, |Varint(z)|))
    ensures DecodeZigzag(k, EncodeZigzag(k, v)) == v
  {
    hide Varint, ParseVarint, EncodeZigzag, DecodeZigzag, Power2;
    PowersOf2();
    ZigzagIs(k, v);
    VarintParsed(EncodeZigzag(k, v), wide, rest);
    Codec.Zigzag(k, v, 0);
  }

  lemma TextParsed(p: Prefix, bytes: Octets, little: bool, rest: Octets)
    requires ItemOk(Text(p, bytes))
    ensures Parse(KText(p), little, Encode(Text(p, bytes), little) + rest)
         == Some((Text(p, bytes), |Encode(Text(p, bytes), little)|))
  {
    hide ParsePrefix, EncodePrefix, Limit;
    PrefixParsed(p, |bytes|, little, bytes + rest);
    var e := EncodePrefix(p, |bytes|, little);
    assert e + bytes + rest == e + (bytes + rest);
    assert (e + (bytes + rest))[|e|..|e| + |bytes|] == bytes;
  }

  // Whatever follows it, an encoded item is read back as it was, and just its bytes are
  // consumed.
  lemma ParseBack(item: Item, little: bool, rest: Octets)
    requires ItemOk(item)
    ensures Parse(KindOf(item), little, Encode(item, little) + rest) == Some((item, |Encode(item, little)|))
  {
    hide Varint, ParseVarint, EncodeZigzag, DecodeZigzag, Power2;
    if item.Zigzag32? {
      ZigzagParsed(32, item.i, false, rest);
    } else if item.Zigzag64? {
      ZigzagParsed(64, item.i, true, rest);
    } else if item.Text? {
      TextParsed(item.prefix, item.bytes, little, rest);
    } else {
      IntegerParsed(item, little, rest);
    }
  }

  lemma IntegerParsed(item: Item, little: bool, rest: Octets)
    requires ItemOk(item) && !item.Zigzag32? && !item.Zigzag64? && !item.Text?
    ensures Parse(KindOf(item), little, Encode(item, little) + rest) == Some((item, |Encode(item, little)|))
  {
    hide Power256, FixedBytes, Varint, ParseFixed, ParseVarint;
    match item
    case Unsigned(w, u) => FixedParsed(w, u, little, rest);
    case Signed(w, i) => FixedParsed(w, ToWord(w, i), little, rest);
    case Var32(u) => VarintParsed(u, false, rest);
    case Var64(u) => VarintParsed(u, true, rest);
    case _ =>
  }

  // ---- The wire format ------------------------------------------------------------------------

  predicate BytesOf(s: Octets, w: nat, v: nat, little: bool) {
    |s| == w && forall i :: 0 <= i < w ==> ByteIs(s[i], v, if little then i else w - 1 - i)
  }

  predicate ByteIs(b: Octet, v: nat, k: nat) {
    Power256(k) > 0 && b == v / Power256(k) % 256
  }

  predicate GroupsOf(s: Octets, v: nat) {
    && s != [] && v < Power128(|s|) && (|s| > 1 ==> v >= Power128(|s| - 1))
    && forall i :: 0 <= i < |s| ==>
         Power128(i) > 0 && s[i] == v / Power128(i) % 128 + if i < |s| - 1 then 128 else 0
  }

  lemma FixedBytesOf(w: nat, v: nat, little: bool)
    ensures BytesOf(FixedBytes(w, v, little), w, v, little)
  {
    hide Power256, FixedBytes;
    forall i | 0 <= i < w ensures ByteIs(FixedBytes(w, v, little)[i], v, if little then i else w - 1 - i) {
      FixedAt(w, v, little, i);
    }
  }

  lemma VarintGroupsOf(v: nat)
    ensures GroupsOf(Varint(v), v)
  {
    hide Power128, Varint;
    VarintAt(v, 0);
    forall i | 0 <= i < |Varint(v)|
      ensures Power128(i) > 0
      ensures Varint(v)[i] == v / Power128(i) % 128 + if i < |Varint(v)| - 1 then 128 else 0
    {
      VarintAt(v, i);
    }
  }

  // The bytes of every item: integers of fixed width by weight, varints by groups of seven
  // bits, small numbers of either sign small, and a string behind its length.
  lemma WireFormat(item: Item, little: bool)
    requires ItemOk(item)
    ensures var e := Encode(item, little);
      match item
      case Unsigned(w, u) => BytesOf(e, w, u, little)
      case Signed(w, i) => BytesOf(e, w, if i < 0 then i + Power256(w) else i, little)
      case Var32(u) => GroupsOf(e, u)
      case Var64(u) => GroupsOf(e, u)
      case Zigzag32(i) => GroupsOf(e, if i >= 0 then 2 * i else -2 * i - 1)
      case Zigzag64(i) => GroupsOf(e, if i >= 0 then 2 * i else -2 * i - 1)
      case Text(p, bytes) =>
        exists n :: 0 <= n <= |e| && e[n..] == bytes
          && match p
             case P16 => BytesOf(e[..n], 2, |bytes|, little)
             case P32 => BytesOf(e[..n], 4, |bytes|, little)
             case P64 => BytesOf(e[..n], 8, |bytes|, little)
             case PVarint => GroupsOf(e[..n], |bytes|)
  {
    hide BytesOf, GroupsOf, Varint, FixedBytes, EncodeZigzag, Power256, Power2;
    match item
    case Unsigned(w, u) => FixedBytesOf(w, u, little);
    case Signed(w, i) => FixedBytesOf(w, ToWord(w, i), little);
    case Var32(u) => VarintGroupsOf(u);
    case Var64(u) => VarintGroupsOf(u);
    case Zigzag32(i) => ZigzagIs(32, i); VarintGroupsOf(EncodeZigzag(32, i));
    case Zigzag64(i) => ZigzagIs(64, i); VarintGroupsOf(EncodeZigzag(64, i));
    case Text(p, bytes) =>
      var e, n := EncodePrefix(p, |bytes|, little), |EncodePrefix(p, |bytes|, little)|;
      assert (e + bytes)[..n] == e && (e + bytes)[n..] == bytes;
      FixedBytesOf(2, |bytes|, little);
      FixedBytesOf(4, |bytes|, little);
      FixedBytesOf(8, |bytes|, little);
      VarintGroupsOf(|bytes|);
  }

  // What is read from any bytes: the sum of those of an integer of fixed width, each with
  // its weight, and of the groups of a varint.
  lemma ReadFormat(w: nat, little: bool, s: Octets, wide: bool)
    ensures ParseFixed(w, little, s) == if |s| < w then None else Some((Weighted(s[..w], little, w), w))
    ensures match ParseVarint(s, wide)
            case None => |s| < (if wide then 10 else 5) && forall i :: 0 <= i < |s| ==> s[i] >= 128
            case Some((v, n)) =>
              && n <= |s| && v == Groups(s, n) % (if wide then TWO_64 else TWO_32)
              && (forall i :: 0 <= i < n - 1 ==> s[i] >= 128)
              && if n < (if wide then 10 else 5) then n > 0 && s[n - 1] < 128 else n == if wide then 10 else 5
  {
    hide FromVarint, FromFixed, Weighted, Groups;
    if |s| >= w {
      FixedSum(s[..w], little);
    }
    VarintSum(s, if wide then 10 else 5, 0, 1);
  }

  // ---- Writing ------------------------------------------------------------------------------

  // One write; what it adds to the memory is no more than it takes.
  method Put(ba: ByteArray, buf: Octets)
    requires ba.Valid()
    modifies ba, ba.spine, Arrays(ba.spine)
    ensures ba.Valid() && ba.Grew() && ba.position == old(ba.position) + |buf| && (old(ba.Tight()) ==> ba.Tight())
    ensures ba.Contents() == Spliced(old(ba.Contents()), old(ba.position), buf)
  {
    hide Flat, Spliced, Apart, Linked, Growth;
    ghost var p, n, c := ba.position, ba.size, ba.capacity;
    ba.BaseSize();
    if ba.Tight() && buf != [] {
      GrowthBelow(c, p, n, |buf|, ba.baseSize);
    }
    NoGrowth(c - p, ba.baseSize);
    SplicedLength(ba.Contents(), p, buf);
    ba.Write(buf);
  }

  // writeUint32 and writeUint64.
  method WriteVarint(ba: ByteArray, v: nat)
    requires ba.Valid()
    modifies ba, ba.spine, Arrays(ba.spine)
    ensures ba.Valid() && ba.Grew() && ba.position == old(ba.position) + |Varint(v)| && (old(ba.Tight()) ==> ba.Tight())
    ensures ba.Contents() == Spliced(old(ba.Contents()), old(ba.position), Varint(v))
  {
    hide Flat, Spliced, Apart, Linked;
    var tmp: Octets := [];
    var value := v;
    while value >= 128
      invariant tmp + Varint(value) == Varint(v)
    {
      assert tmp + ([value % 128 + 128] + Varint(value / 128)) == tmp + [value % 128 + 128] + Varint(value / 128);
      tmp := tmp + [value % 128 + 128];
      value := value / 128;
    }
    Put(ba, tmp + [value]);
  }

  method WriteItem(ba: ByteArray, item: Item, little: bool)
    requires ba.Valid() && ItemOk(item)
    modifies ba, ba.spine, Arrays(ba.spine)
    ensures ba.Valid() && ba.Grew() && ba.position == old(ba.position) + |Encode(item, little)|
    ensures old(ba.Tight()) ==> ba.Tight()
    ensures ba.Contents() == Spliced(old(ba.Contents()), old(ba.position), Encode(item, little))
  {
    hide Flat, Spliced, Apart, Linked, Varint, FixedBytes, Power256, EncodeZigzag;
    match item
    case Unsigned(w, u) => Put(ba, FixedBytes(w, u, little));
    case Signed(w, i) => Put(ba, FixedBytes(w, ToWord(w, i), little));
    case Var32(u) => WriteVarint(ba, u);
    case Var64(u) => WriteVarint(ba, u);
    case Zigzag32(i) => WriteVarint(ba, EncodeZigzag(32, i));
    case Zigzag64(i) => WriteVarint(ba, EncodeZigzag(64, i));
    case Text(p, bytes) => WriteText(ba, p, bytes, little);
  }

  method WriteText(ba: ByteArray, p: Prefix, bytes: Octets, little: bool)
    requires ba.Valid() && |bytes| < Limit(p)
    modifies ba, ba.spine, Arrays(ba.spine)
    ensures ba.Valid() && ba.Grew() && (old(ba.Tight()) ==> ba.Tight())
    ensures ba.position == old(ba.position) + |EncodePrefix(p, |bytes|, little) + bytes|
    ensures ba.Contents() == Spliced(old(ba.Contents()), old(ba.position), EncodePrefix(p, |bytes|, little) + bytes)
  {
    hide Flat, Spliced, Apart, Linked, Varint, FixedBytes;
    SplicedTwice(ba.Contents(), ba.position, EncodePrefix(p, |bytes|, little), bytes);
    if p.PVarint? {
      WriteVarint(ba, |bytes|);
    } else {
      Put(ba, FixedBytes(Width(p), |bytes|, little));
    }
    Put(ba, bytes);
  }

  // ---- Reading ------------------------------------------------------------------------------

  ghost function Ahead(ba: ByteArray): Octets
    requires ba.Valid()
    reads ba, ba.spine, Arrays(ba.spine)
  {
    ba.Contents()[ba.position..]
  }

  method ReadFixed(ba: ByteArray, w: nat, little: bool) returns (r: Option<nat>)
    requires ba.Valid() && w > 0
    modifies ba`position, ba`cur
    ensures ba.Valid() && ba.spine == old(ba.spine) && ba.Contents() == old(ba.Contents())
    ensures match ParseFixed(w, little, old(Ahead(ba)))
            case None => r.None? && ba.position == old(ba.position)
            case Some((v, n)) => r == Some(v) && ba.position == old(ba.position) + n
  {
    hide Flat, Apart, Linked, FromFixed;
    var d := ba.Read(w);
    if d.Data? {
      assert old(Ahead(ba))[..w] == d.bytes;
      r := Some(FromFixed(d.bytes, little));
    } else {
      r := None;
    }
  }

  // readFuint8.
  method ReadByte(ba: ByteArray) returns (r: Option<Octet>)
    requires ba.Valid()
    modifies ba`position, ba`cur
    ensures ba.Valid() && ba.spine == old(ba.spine) && ba.Contents() == old(ba.Contents())
    ensures r.None? <==> old(Ahead(ba)) == []
    ensures r.None? ==> ba.position == old(ba.position)
    ensures r.Some? ==> r.value == old(Ahead(ba))[0] && Ahead(ba) == old(Ahead(ba))[1..]
                        && ba.position == old(ba.position) + 1
  {
    hide Flat, Apart, Linked;
    var d := ba.Read(1);
    r := if d.Data? then Some(d.bytes[0]) else None;
  }

  // readUint32 and readUint64: a byte at a time, until one below 128 or until the
  // accumulator is full.
  method ReadVarint(ba: ByteArray, wide: bool) returns (r: Option<nat>)
    requires ba.Valid()
    modifies ba`position, ba`cur
    ensures ba.Valid() && ba.spine == old(ba.spine) && ba.Contents() == old(ba.Contents())
    ensures match ParseVarint(old(Ahead(ba)), wide)
            case None => r.None? && ba.position == ba.size
            case Some((v, n)) => r == Some(v) && ba.position == old(ba.position) + n
  {
    hide Flat, Apart, Linked, FromVarint, Ahead, Accumulated;
    var bits := if wide then 64 else 32;
    var i, acc: nat, scale: nat := 0, 0, 1;
    ghost var groups: nat := if wide then 10 else 5;
    while i < bits
      invariant ba.Valid() && ba.spine == old(ba.spine) && ba.Contents() == old(ba.Contents())
      invariant old(ba.position) <= ba.position && i + 7 * groups == (if wide then 70 else 35)
      invariant FromVarint(old(Ahead(ba)), if wide then 10 else 5, 0, 1)
             == Later(FromVarint(Ahead(ba), groups, acc, scale), ba.position - old(ba.position))
      decreases groups
    {
      VarintStep(Ahead(ba), groups, acc, scale);
      AheadSize(ba);
      var b := ReadByte(ba);
      if b.None? {
        return None;
      }
      if b.value < 128 {
        acc := Accumulated(acc, b.value, scale);
        r := Some(acc % (if wide then TWO_64 else TWO_32));
        return;
      }
      acc, scale := Accumulated(acc, b.value - 128, scale), scale * 128;
      i, groups := i + 7, groups - 1;
    }
    VarintStep(Ahead(ba), 0, acc, scale);
    r := Some(acc % (if wide then TWO_64 else TWO_32));
  }

  function Accumulated(acc: nat, b: nat, scale: nat): nat { acc + b * scale }

  lemma VarintStep(s: Octets, groups: nat, acc: nat, scale: nat)
    ensures groups == 0 ==> FromVarint(s, groups, acc, scale) == Some((acc, 0))
    ensures groups > 0 && s == [] ==> FromVarint(s, groups, acc, scale).None?
    ensures groups > 0 && s != [] && s[0] < 128 ==>
      FromVarint(s, groups, acc, scale) == Some((Accumulated(acc, s[0], scale), 1))
    ensures groups > 0 && s != [] && s[0] >= 128 ==>
      FromVarint(s, groups, acc, scale)
      == Later(FromVarint(s[1..], groups - 1, Accumulated(acc, s[0] - 128, scale), scale * 128), 1)
  {
  }

  function Later(r: Option<(nat, nat)>, n: nat): Option<(nat, nat)> {
    match r case None => None case Some((v, k)) => Some((v, k + n))
  }

  predicate EmptyText(item: Item) { item.Text? && item.bytes == [] }

  // The bytes that a read without a result takes: none of an integer of fixed width that
  // is not whole, all of a varint that is not, and the length of a string.
  function Spent(kind: Kind, little: bool, s: Octets): nat {
    match kind
    case KUnsigned(_) => 0
    case KSigned(_) => 0
    case KText(p) => SpentPrefix(p, little, s)
    case _ => |s|
  }

  function SpentPrefix(p: Prefix, little: bool, s: Octets): nat {
    match ParsePrefix(p, little, s)
    case None => if p.PVarint? then |s| else 0
    case Some((_, n)) => n
  }

  // What a read of one item makes of the bytes ahead: the item that they start with, its
  // bytes consumed, or none if they are too few. The one exception is an empty string
  // whose length is at the very end of the memory: reading its no bytes finds no block.
  ghost predicate ItemRead(kind: Kind, little: bool, ahead: Octets, room: int, r: Option<Item>, n: int) {
    match Parse(kind, little, ahead)
    case None => r.None? && n == Spent(kind, little, ahead)
    case Some((item, k)) => n == k && r == if EmptyText(item) && k == room then None else Some(item)
  }

  method ReadItem(ba: ByteArray, kind: Kind, little: bool) returns (r: Option<Item>)
    requires ba.Valid() && (kind.KUnsigned? ==> kind.width > 0) && (kind.KSigned? ==> kind.width > 0)
    modifies ba`position, ba`cur
    ensures ba.Valid() && ba.spine == old(ba.spine) && ba.Contents() == old(ba.Contents())
    ensures ItemRead(kind, little, old(Ahead(ba)), old(ba.capacity - ba.position), r, ba.position - old(ba.position))
  {
    hide Flat, Apart, Linked, ParseFixed, ParseVarint, Ahead, DecodeZigzag, FromWord;
    AheadSize(ba);
    r := None;
    match kind
    case KUnsigned(w) =>
      var u := ReadFixed(ba, w, little);
      if u.Some? { r := Some(Unsigned(w, u.value)); }
    case KSigned(w) =>
      var u := ReadFixed(ba, w, little);
      if u.Some? { r := Some(Signed(w, FromWord(w, u.value))); }
    case KVar32 =>
      var u := ReadVarint(ba, false);
      if u.Some? { r := Some(Var32(u.value)); }
    case KVar64 =>
      var u := ReadVarint(ba, true);
      if u.Some? { r := Some(Var64(u.value)); }
    case KZigzag32 =>
      var u := ReadVarint(ba, false);
      if u.Some? { r := Some(Item.Zigzag32(DecodeZigzag(32, u.value))); }
    case KZigzag64 =>
      var u := ReadVarint(ba, true);
      if u.Some? { r := Some(Item.Zigzag64(DecodeZigzag(64, u.value))); }
    case KText(p) =>
      r := ReadText(ba, p, little);
  }

  method ReadPrefix(ba: ByteArray, p: Prefix, little: bool) returns (r: Option<nat>)
    requires ba.Valid()
    modifies ba`position, ba`cur
    ensures ba.Valid() && ba.spine == old(ba.spine) && ba.Contents() == old(ba.Contents())
    ensures match ParsePrefix(p, little, old(Ahead(ba)))
            case None => r.None? && ba.position == old(ba.position) + SpentPrefix(p, little, old(Ahead(ba)))
            case Some((v, n)) => r == Some(v) && ba.position == old(ba.position) + n
  {
    hide Flat, Apart, Linked, ParseFixed, ParseVarint, Ahead;
    AheadSize(ba);
    if p.PVarint? {
      r := ReadVarint(ba, true);
    } else {
      r := ReadFixed(ba, Width(p), little);
    }
  }

  method ReadText(ba: ByteArray, p: Prefix, little: bool) returns (r: Option<Item>)
    requires ba.Valid()
    modifies ba`position, ba`cur
    ensures ba.Valid() && ba.spine == old(ba.spine) && ba.Contents() == old(ba.Contents())
    ensures ItemRead(KText(p), little, old(Ahead(ba)), old(ba.capacity - ba.position), r,
                     ba.position - old(ba.position))
  {
    hide Flat, Apart, Linked, ParsePrefix, ItemRead;
    ghost var s, start, room := ba.Contents(), ba.position, ba.capacity - ba.position;
    var len := ReadPrefix(ba, p, little);
    if len.None? {
      TextIs(p, little, s[start..], room, None, ba.position - start);
      return None;
    }
    ghost var n := ba.position - start;
    var d := ba.Read(len.value);
    if d.Data? {
      assert d.bytes == s[start..][n..n + len.value];
      r := Some(Text(p, d.bytes));
    } else {
      r := None;
    }
    TextIs(p, little, s[start..], room, r, ba.position - start);
  }

  lemma TextIs(p: Prefix, little: bool, ahead: Octets, room: int, r: Option<Item>, n: int)
    requires match ParsePrefix(p, little, ahead)
             case None => r.None? && n == SpentPrefix(p, little, ahead)
             case Some((len, k)) =>
               if k + len > |ahead| || (len == 0 && k == room) then r.None? && n == k
               else r == Some(Text(p, ahead[k..k + len])) && n == k + len
    ensures ItemRead(KText(p), little, ahead, room, r, n)
  {
    hide ParsePrefix;
  }

  // ---- A whole stream -------------------------------------------------------------------------

  function EncodeAll(items: seq<Item>, little: bool): Octets
    requires forall i <- items :: ItemOk(i)
  {
    if items == [] then [] else Encode(items[0], little) + EncodeAll(items[1..], little)
  }

  method WriteAll(ba: ByteArray, items: seq<Item>, little: bool)
    requires ba.Valid() && forall i <- items :: ItemOk(i)
    modifies ba, ba.spine, Arrays(ba.spine)
    ensures ba.Valid() && ba.Grew() && (old(ba.Tight()) ==> ba.Tight())
    ensures ba.Contents() == Spliced(old(ba.Contents()), old(ba.position), EncodeAll(items, little))
  {
    hide Flat, Apart, Linked, Spliced, Encode, ItemOk, EncodeAll;
    SplicedNothing(ba.Contents(), ba.position);
    ghost var done: Octets := [];
    assert items[0..] == items && done + EncodeAll(items, little) == EncodeAll(items, little);
    var i := 0;
    while i < |items|
      invariant i <= |items| && ba.Valid() && ba.Grew() && ba.position == old(ba.position) + |done|
      invariant ba.Contents() == Spliced(old(ba.Contents()), old(ba.position), done)
      invariant old(ba.Tight()) ==> ba.Tight()
      invariant done + EncodeAll(items[i..], little) == EncodeAll(items, little)
    {
      ghost var e := Encode(items[i], little);
      SplicedTwice(old(ba.Contents()), old(ba.position), done, e);
      EncodeStep(done, items, i, little);
      WriteItem(ba, items[i], little);
      done := done + e;
      i := i + 1;
    }
    EncodeNothing(items[i..], little);
    assert done + [] == done;
  }

  lemma EncodeNothing(items: seq<Item>, little: bool)
    requires items == []
    ensures EncodeAll(items, little) == []
  {
  }

  lemma EncodeStep(done: Octets, items: seq<Item>, i: nat, little: bool)
    requires i < |items| && forall i <- items :: ItemOk(i)
    ensures done + EncodeAll(items[i..], little) == done + Encode(items[i], little) + EncodeAll(items[i + 1..], little)
    ensures EncodeAll(items[i..], little) == Encode(items[i], little) + EncodeAll(items[i + 1..], little)
  {
    hide Encode, ItemOk;
    var rest := items[i..];
    assert rest[0] == items[i] && rest[1..] == items[i + 1..];
    assert done + (Encode(rest[0], little) + EncodeAll(rest[1..], little))
        == done + Encode(rest[0], little) + EncodeAll(rest[1..], little);
  }

  // Reading what was written as an item.
  method ReadBack(ba: ByteArray, kind: Kind, little: bool, ghost item: Item, ghost rest: Octets)
    returns (r: Option<Item>)
    requires ba.Valid() && ItemOk(item) && kind == KindOf(item) && Ahead(ba) == Encode(item, little) + rest
    modifies ba`position, ba`cur
    ensures ba.Valid() && ba.spine == old(ba.spine) && ba.Contents() == old(ba.Contents())
    ensures if EmptyText(item) && |Encode(item, little)| == ba.capacity - old(ba.position) then r.None?
            else r == Some(item) && Ahead(ba) == rest
  {
    hide Flat, Apart, Linked, Encode, ItemOk, Parse;
    ghost var s, n := ba.Contents(), |Encode(item, little)|;
    ParseBack(item, little, rest);
    Widths(item);
    r := ReadItem(ba, kind, little);
    assert r.Some? ==> ba.Contents()[ba.position..] == s[old(ba.position)..][n..];
  }

  predicate EndsEmpty(items: seq<Item>) {
    items != [] && EmptyText(items[|items| - 1])
  }

  // The answer is None if a read finds no block.
  method ReadAll(ba: ByteArray, kinds: seq<Kind>, little: bool, ghost items: seq<Item>)
    returns (out: Option<seq<Item>>)
    requires ba.Valid() && (forall i <- items :: ItemOk(i)) && |kinds| == |items|
    requires (forall i :: 0 <= i < |items| ==> kinds[i] == KindOf(items[i])) && Ahead(ba) == EncodeAll(items, little)
    modifies ba`position, ba`cur
    ensures ba.Valid()
    ensures if EndsEmpty(items) && ba.size == ba.capacity then out.None? else out == Some(items) && Ahead(ba) == []
  {
    hide Flat, Apart, Linked, Encode, ItemOk, EncodeAll, Ahead, EmptyText;
    assert items[0..] == items;
    var done: seq<Item> := [];
    while |done| < |kinds|
      invariant |done| <= |kinds| && ba.Valid() && ba.spine == old(ba.spine) && done == items[..|done|]
      invariant Ahead(ba) == EncodeAll(items[|done|..], little)
      invariant |done| == |items| ==> !(EndsEmpty(items) && ba.size == ba.capacity)
    {
      ghost var n := |done|;
      EncodeStep([], items, n, little);
      AheadSize(ba);
      LastRead(items, n, little, ba.capacity - ba.position);
      var item := ReadBack(ba, kinds[|done|], little, items[n], EncodeAll(items[n + 1..], little));
      if item.None? {
        return None;
      }
      done := done + [item.value];
    }
    EncodeNothing(items[|done|..], little);
    assert items[..|items|] == items;
    out := Some(done);
  }

  lemma AheadSize(ba: ByteArray)
    requires ba.Valid()
    ensures |Ahead(ba)| == ba.size - ba.position
  {
  }

  // Every item has an encoding of some bytes.
  lemma EncodeSome(items: seq<Item>, little: bool)
    requires items != [] && forall i <- items :: ItemOk(i)
    ensures EncodeAll(items, little) != []
  {
    hide ItemOk, Encode;
    VarintSome(items[0], little);
  }

  // Only the last read of a stream can come to the end of the memory.
  lemma LastRead(items: seq<Item>, n: nat, little: bool, room: int)
    requires n < |items| && (forall i <- items :: ItemOk(i)) && |EncodeAll(items[n..], little)| <= room
    ensures EmptyText(items[n]) && |Encode(items[n], little)| == room
            <==> n == |items| - 1 && EndsEmpty(items) && |EncodeAll(items[n..], little)| == room
  {
    hide ItemOk, Encode, EmptyText;
    EncodeStep([], items, n, little);
    if n + 1 < |items| {
      EncodeSome(items[n + 1..], little);
    }
  }

  lemma VarintSome(item: Item, little: bool)
    requires ItemOk(item)
    ensures Encode(item, little) != []
  {
  }

  // Any items written to a new array of any block size and read back from the start by
  // the matching reads are the same items, and every byte is consumed, unless the last one
  // is an empty string and the encodings fill whole blocks: then its read finds no block.
  method RoundTrip(baseSize: nat, items: seq<Item>, little: bool) returns (out: Option<seq<Item>>, ba: ByteArray)
    requires baseSize > 0 && forall i <- items :: ItemOk(i)
    ensures if EndsEmpty(items) && |EncodeAll(items, little)| % baseSize == 0 then out.None?
            else out == Some(items) && ba.Valid() && ba.position == ba.size
  {
    hide Flat, Apart, Linked, Encode, ItemOk, EncodeAll;
    ba := new ByteArray(baseSize);
    WriteAll(ba, items, little);
    if items != [] {
      EncodeSome(items, little);
      FullWhen(ba);
    }
    var _ := ba.SetPosition(0);
    var kinds := seq(|items|, i requires 0 <= i < |items| => KindOf(items[i]));
    out := ReadAll(ba, kinds, little, items);
  }

  // The contents fill the memory just when they fill whole blocks.
  lemma FullWhen(ba: ByteArray)
    requires ba.Valid() && ba.Tight() && ba.size > 0
    ensures ba.size == ba.capacity <==> ba.size % ba.baseSize == 0
  {
    hide Flat, Apart, Linked;
    ba.BaseSize();
    var k, base := |ba.spine|, ba.baseSize;
    SpanNext(k - 1, base);
    DivOf(k, 0, base);
    if ba.size < ba.capacity {
      DivOf(k - 1, ba.size - Span(k - 1, base), base);
    }
  }

  lemma Widths(item: Item)
    requires ItemOk(item)
    ensures (KindOf(item).KUnsigned? ==> KindOf(item).width > 0) && (KindOf(item).KSigned? ==> KindOf(item).width > 0)
  {
  }
}
