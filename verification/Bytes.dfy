// Bytes as the C and C++ sources see them: eight-bit characters, and the
// 64-bit and 32-bit bounds that the sources' integer types put on lengths.
module Bytes {
  type Byte = c: char | c as int < 256 witness 'a'
  type ByteString = seq<Byte>

  const TWO_16: int := 0x1_0000
  const TWO_32: int := 0x1_0000_0000
  const TWO_64: int := 0x1_0000_0000_0000_0000

  datatype Option<+T> = None | Some(value: T)

  // One of the bytes that are listed.
  predicate Among(c: Byte, s: string) { exists i :: 0 <= i < |s| && s[i] == c }

  const UPPER: string := "ABCDEFGHIJKLMNOPQRSTUVWXYZ"
  const LOWER: string := "abcdefghijklmnopqrstuvwxyz"

  lemma LettersAre(c: Byte)
    ensures Among(c, UPPER) <==> 'A' <= c <= 'Z'
    ensures Among(c, LOWER) <==> 'a' <= c <= 'z'
  {
    assert forall i: int | 0 <= i < 26 :: UPPER[i] as int == 'A' as int + i;
    assert forall i: int | 0 <= i < 26 :: LOWER[i] as int == 'a' as int + i;
    if 'A' <= c <= 'Z' {
      assert UPPER[c as int - 'A' as int] == c;
    }
    if 'a' <= c <= 'z' {
      assert LOWER[c as int - 'a' as int] == c;
    }
  }
}
