// The typed values that ByteArray stores: fixed-width integers in either byte order,
// variable-length integers, zigzag integers and strings behind a length.
module Codec {
  import opened Bytes
  import opened Blocks
  import opened ByteArrays

  // ---- Zigzag ---------------------------------------------------------------------------

  function Power2(k: nat): (n: nat)
    ensures n > 0
  {
    if k == 0 then 1 else 2 * Power2(k - 1)
  }

  // ^ on k bits.
  function Xor(k: nat, a: nat, b: nat): nat {
    if k == 0 then 0 else (if a % 2 == b % 2 then 0 else 1) + 2 * Xor(k - 1, a / 2, b / 2)
  }

  // The signed value of k bits.
  function AsSigned(k: nat, u: nat): int { if 2 * u < Power2(k) then u else u - Power2(k) }

  predicate InSigned(k: nat, v: int) { 0 <= 2 * v + Power2(k) && 2 * v < Power2(k) }

  // -v is negated and doubled as an unsigned number of k bits.
  function EncodeZigzag(k: nat, v: int): nat {
    if v < 0 then ((-v) % Power2(k) * 2 - 1) % Power2(k) else v * 2
  }

  // -(v & 1) is no bit or all of them.
  function DecodeZigzag(k: nat, u: nat): int {
    AsSigned(k, Xor(k, u / 2, if u % 2 == 1 then Power2(k) - 1 else 0))
  }

  lemma {:induction false} XorOnes(k: nat, a: nat)
    requires a < Power2(k)
    ensures Xor(k, a, Power2(k) - 1) == Power2(k) - 1 - a && Xor(k, a, 0) == a
    decreases k
  {
    if k > 0 {
      XorOnes(k - 1, a / 2);
      assert (Power2(k) - 1) / 2 == Power2(k - 1) - 1 && (Power2(k) - 1) % 2 == 1;
    }
  }

  lemma Within(n: nat, m: nat)
    requires n < m
    ensures n % m == n
  {
  }

  // What the encoding is: small numbers of either sign become small ones.
  lemma ZigzagIs(k: nat, v: int)
    requires InSigned(k, v)
    ensures EncodeZigzag(k, v) == (if v >= 0 then 2 * v else -2 * v - 1) < Power2(k)
  {
    hide Power2;
    if v < 0 {
      Within(-v, Power2(k));
      Within(-v * 2 - 1, Power2(k));
    }
  }

  lemma UnzigzagIs(k: nat, u: nat)
    requires k > 0 && u < Power2(k)
    ensures DecodeZigzag(k, u) == (if u % 2 == 0 then u / 2 else -(u / 2) - 1) && InSigned(k, DecodeZigzag(k, u))
  {
    hide Xor;
    assert Power2(k) == 2 * Power2(k - 1);
    XorOnes(k, u / 2);
  }

  // Each undoes the other on every number of k bits, the least negative one included.
  lemma Zigzag(k: nat, v: int, u: nat)
    requires k > 0 && InSigned(k, v) && u < Power2(k)
    ensures DecodeZigzag(k, EncodeZigzag(k, v)) == v
    ensures EncodeZigzag(k, DecodeZigzag(k, u)) == u
  {
    hide EncodeZigzag, DecodeZigzag, Power2;
    ZigzagIs(k, v);
    UnzigzagIs(k, EncodeZigzag(k, v));
    UnzigzagIs(k, u);
    ZigzagIs(k, DecodeZigzag(k, u));
  }

  // ---- Fixed-width integers ---------------------------------------------------------------

  function Power256(w: nat): nat { if w == 0 then 1 else 256 * Power256(w - 1) }

  // The low w bytes of v, least significant first.
  function LittleEndian(w: nat, v: nat): (s: Octets)
    ensures |s| == w
    decreases w
  {
    if w == 0 then [] else [v % 256] + LittleEndian(w - 1, v / 256)
  }

  function FromLittleEndian(s: Octets): nat {
    if s == [] then 0 else s[0] + 256 * FromLittleEndian(s[1..])
  }

  function Reversed(s: Octets): (r: Octets)
    ensures |r| == |s|
  {
    if s == [] then [] else Reversed(s[1..]) + [s[0]]
  }

  lemma {:induction false} ReversedAt(s: Octets, i: nat)
    requires i < |s|
    ensures Reversed(s)[i] == s[|s| - 1 - i]
  {
    if i < |s| - 1 {
      ReversedAt(s[1..], i);
    }
  }

  lemma ReversedTwice(s: Octets)
    ensures Reversed(Reversed(s)) == s
  {
    forall i | 0 <= i < |s| ensures Reversed(Reversed(s))[i] == s[i] {
      ReversedAt(Reversed(s), i);
      ReversedAt(s, |s| - 1 - i);
    }
  }

  // The bytes of a fixed-width integer, in the byte order the array is set to.
  function FixedBytes(w: nat, v: nat, little: bool): (s: Octets)
    ensures |s| == w
  {
    if little then LittleEndian(w, v) else Reversed(LittleEndian(w, v))
  }

  function FromFixed(s: Octets, little: bool): nat {
    FromLittleEndian(if little then s else Reversed(s))
  }

  lemma DivTwice(v: nat, a: nat, b: nat)
    requires a > 0 && b > 0
    ensures a * b > 0 && v / a / b == v / (a * b)
  {
    var q, r, t := v / a / b, v / a % b, v % a;
    Divided(v / a, b);
    Divided(v, a);
    Regrouped(q, r, t, a, b);
    QuotientIs(v, a * b, q, r * a + t);
  }

  lemma Divided(v: nat, m: nat)
    requires m > 0
    ensures v == v / m * m + v % m && v % m < m
  {
  }

  lemma Regrouped(q: nat, r: nat, t: nat, a: nat, b: nat)
    requires r < b && t < a
    ensures (q * b + r) * a + t == q * (a * b) + (r * a + t) && r * a + t < a * b && a * b > 0
  {
    assert (q * b + r) * a == q * b * a + r * a;
    assert q * b * a == q * (a * b);
    assert r * a <= (b - 1) * a;
    assert (b - 1) * a == a * b - a;
  }

  lemma QuotientIs(v: nat, m: nat, q: nat, r: nat)
    requires m > 0 && v == q * m + r && r < m
    ensures v / m == q
  {
    var k := v / m - q;
    MultipleGrows(k, m);
    assert k * m == v / m * m - q * m;
  }

  lemma MultipleGrows(k: int, m: int)
    requires m > 0
    ensures k >= 1 ==> k * m >= m
    ensures k <= -1 ==> k * m <= -m
  {
  }

  lemma {:induction false} LittleEndianAt(w: nat, v: nat, i: nat)
    requires i < w
    ensures Power256(i) > 0 && LittleEndian(w, v)[i] == v / Power256(i) % 256
    decreases w
  {
    if i > 0 {
      LittleEndianAt(w - 1, v / 256, i - 1);
      DivTwice(v, 256, Power256(i - 1));
    }
  }

  // The wire format: the byte of weight 256^i is at i in little endian, and at i from the
  // end in big endian.
  lemma FixedAt(w: nat, v: nat, little: bool, i: nat)
    requires i < w
    ensures var k := if little then i else w - 1 - i;
      Power256(k) > 0 && FixedBytes(w, v, little)[i] == v / Power256(k) % 256
  {
    hide Power256;
    LittleEndianAt(w, v, if little then i else w - 1 - i);
    ReversedAt(LittleEndian(w, v), i);
  }

  // The first n bytes with their weights.
  function Weighted(s: Octets, little: bool, n: nat): nat
    requires n <= |s|
  {
    if n == 0 then 0
    else Weighted(s, little, n - 1) + s[n - 1] * Power256(if little then n - 1 else |s| - n)
  }

  lemma {:induction false} WeightedMore(s: Octets, n: nat)
    requires n < |s|
    ensures Weighted(s, true, n + 1) == s[0] + 256 * Weighted(s[1..], true, n)
  {
    if n > 0 {
      WeightedMore(s, n - 1);
      assert s[1..][n - 1] == s[n];
      Thrice(s[n], 256, Power256(n - 1));
    }
  }

  lemma Thrice(a: nat, b: nat, c: nat)
    ensures a * (b * c) == b * (a * c)
  {
  }

  lemma {:induction false} LittleSum(s: Octets)
    ensures FromLittleEndian(s) == Weighted(s, true, |s|)
  {
    if s != [] {
      LittleSum(s[1..]);
      WeightedMore(s, |s| - 1);
    }
  }

  // The sum of the bytes from the last one on is the same in the other order.
  lemma {:induction false} BigSum(s: Octets, n: nat)
    requires n <= |s|
    ensures Weighted(s, false, |s|) == Weighted(s, false, |s| - n) + Weighted(Reversed(s), true, n)
  {
    if n > 0 {
      BigSum(s, n - 1);
      ReversedAt(s, n - 1);
    }
  }

  // What is read from any bytes: their sum, each with its weight.
  lemma FixedSum(s: Octets, little: bool)
    ensures FromFixed(s, little) == Weighted(s, little, |s|)
  {
    if little {
      LittleSum(s);
    } else {
      LittleSum(Reversed(s));
      BigSum(s, |s|);
    }
  }

  lemma {:induction false} LittleEndianBack(w: nat, v: nat)
    requires v < Power256(w)
    ensures FromLittleEndian(LittleEndian(w, v)) == v
    decreases w
  {
    if w > 0 {
      LittleEndianBack(w - 1, v / 256);
    }
  }

  lemma FixedBack(w: nat, v: nat, little: bool)
    requires v < Power256(w)
    ensures FromFixed(FixedBytes(w, v, little), little) == v
  {
    LittleEndianBack(w, v);
    ReversedTwice(LittleEndian(w, v));
  }

  // ---- Variable-length integers -------------------------------------------------------------

  function Varint(v: nat): (s: Octets)
    ensures s != []
  {
    if v >= 128 then [v % 128 + 128] + Varint(v / 128) else [v]
  }

  function Power128(k: nat): nat { if k == 0 then 1 else 128 * Power128(k - 1) }

  // A varint takes as many bytes as there are groups of seven bits.
  lemma {:induction false} VarintLength(v: nat, k: nat)
    requires v < Power128(k) && k > 0
    ensures |Varint(v)| <= k
    decreases k
  {
    if v >= 128 {
      VarintLength(v / 128, k - 1);
    }
  }

  // At most 5 bytes for 32 bits and 10 for 64.
  lemma VarintLengths(v: nat)
    ensures v < TWO_32 ==> 1 <= |Varint(v)| <= 5
    ensures v < TWO_64 ==> 1 <= |Varint(v)| <= 10
  {
    assert Power128(1) == 128;
    assert Power128(3) == 128 * 128 * 128;
    assert Power128(5) == 128 * 128 * Power128(3);
    assert Power128(7) == 128 * 128 * Power128(5);
    assert Power128(9) == 128 * 128 * Power128(7);
    if v < TWO_32 {
      VarintLength(v, 5);
    }
    if v < TWO_64 {
      VarintLength(v, 10);
    }
  }

  // What the reading loop makes of s: at most groups bytes are taken, the i-th shifted by
  // 7 i bits into an accumulator that they cannot overlap.
  function FromVarint(s: Octets, groups: nat, acc: nat, scale: nat): Option<(nat, nat)>
    decreases groups
  {
    if groups == 0 then Some((acc, 0))
    else if s == [] then None
    else if s[0] < 128 then Some((acc + s[0] * scale, 1))
    else match FromVarint(s[1..], groups - 1, acc + (s[0] - 128) * scale, scale * 128)
      case None => None
      case Some((v, n)) => Some((v, n + 1))
  }

  // The wire format: groups of seven bits, the lowest first, with the top bit set on all
  // bytes but the last; no more bytes than the number needs.
  lemma {:induction false} VarintAt(v: nat, i: nat)
    requires i < |Varint(v)|
    ensures var n := |Varint(v)|;
      && Power128(i) > 0 && Varint(v)[i] % 128 == v / Power128(i) % 128 && (Varint(v)[i] >= 128 <==> i < n - 1)
      && (n > 1 ==> v >= Power128(n - 1)) && v < Power128(n)
    decreases v
  {
    if v >= 128 {
      VarintAt(v / 128, if i > 0 then i - 1 else 0);
      var n := |Varint(v / 128)|;
      assert |Varint(v)| == n + 1 && Power128(n) == 128 * Power128(n - 1);
      if i > 0 {
        DivTwice(v, 128, Power128(i - 1));
      }
    } else {
      assert Power128(1) == 128 * Power128(0);
    }
  }

  // The first n bytes, seven bits of each.
  function Groups(s: Octets, n: nat): nat
    requires n <= |s|
  {
    if n == 0 then 0 else s[0] % 128 + 128 * Groups(s[1..], n - 1)
  }

  // What is read from any bytes: up to the first one below 128, or as many as there can be.
  lemma {:induction false} VarintSum(s: Octets, groups: nat, acc: nat, scale: nat)
    ensures match FromVarint(s, groups, acc, scale)
            case None => |s| < groups && forall i :: 0 <= i < |s| ==> s[i] >= 128
            case Some((v, n)) =>
              && n <= |s| && n <= groups && v == acc + scale * Groups(s, n)
              && (forall i :: 0 <= i < n - 1 ==> s[i] >= 128) && (n < groups ==> n > 0 && s[n - 1] < 128)
    decreases groups
  {
    if groups > 0 && s != [] {
      if s[0] >= 128 {
        VarintSum(s[1..], groups - 1, acc + (s[0] - 128) * scale, scale * 128);
        var r := FromVarint(s[1..], groups - 1, acc + (s[0] - 128) * scale, scale * 128);
        if r.Some? {
          var g := Groups(s[1..], r.value.1);
          assert s[0] % 128 == s[0] - 128;
          GroupsMore(s[0] - 128, scale, g);
        }
        assert forall i :: 1 <= i < |s| ==> s[i] == s[1..][i - 1];
      } else {
        assert Groups(s, 1) == s[0] % 128 + 128 * Groups(s[1..], 0) == s[0];
      }
    }
  }

  lemma GroupsMore(a: nat, scale: nat, g: nat)
    ensures a * scale + scale * 128 * g == scale * (a + 128 * g)
  {
    assert scale * (a + 128 * g) == scale * a + scale * (128 * g);
    assert scale * 128 * g == scale * (128 * g);
  }

  lemma {:induction false} VarintBack(v: nat, rest: Octets, groups: nat, acc: nat, scale: nat)
    requires |Varint(v)| <= groups
    ensures FromVarint(Varint(v) + rest, groups, acc, scale) == Some((acc + v * scale, |Varint(v)|))
    decreases groups
  {
    var s := Varint(v) + rest;
    if v >= 128 {
      assert s[1..] == Varint(v / 128) + rest;
      VarintBack(v / 128, rest, groups - 1, acc + v % 128 * scale, scale * 128);
      ScaleSplits(v, scale);
    }
  }

  lemma ScaleSplits(v: nat, scale: nat)
    ensures v % 128 * scale + v / 128 * (scale * 128) == v * scale
  {
    var a, b := v % 128, v / 128;
    assert b * (scale * 128) == (b * 128) * scale;
    assert v == a + b * 128;
    assert (a + b * 128) * scale == a * scale + (b * 128) * scale;
  }
}
