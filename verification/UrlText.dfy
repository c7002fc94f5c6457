// Percent coding (section 2.1 of RFC 3986) as sylar/util.cpp does it, and the
// query-parameter splitter of sylar/http/http.cc that decodes with it.
module UrlText {
  import opened Bytes

  const HEX_DIGITS: ByteString := "0123456789ABCDEF"

  // The table uri_chars. '=' is in it, so the encoder lets '=' through.
  predicate IsUnreserved(c: Byte) {
    || 'a' <= c <= 'z' || 'A' <= c <= 'Z' || '0' <= c <= '9'
    || c == '-' || c == '.' || c == '=' || c == '_' || c == '~'
  }

  predicate IsHexDigit(c: Byte) {
    '0' <= c <= '9' || 'a' <= c <= 'f' || 'A' <= c <= 'F'
  }

  // The table xdigit_chars.
  function HexValue(c: Byte): (v: int)
    ensures 0 <= v < 16
  {
    if '0' <= c <= '9' then c as int - '0' as int
    else if 'a' <= c <= 'f' then c as int - 'a' as int + 10
    else if 'A' <= c <= 'F' then c as int - 'A' as int + 10
    else 0
  }

  function EncodedByte(c: Byte, spaceAsPlus: bool): ByteString {
    if IsUnreserved(c) then [c]
    else if c == ' ' && spaceAsPlus then ['+']
    else ['%', HEX_DIGITS[c as int / 16], HEX_DIGITS[c as int % 16]]
  }

  function Encoded(s: ByteString, spaceAsPlus: bool): ByteString {
    if s == [] then [] else EncodedByte(s[0], spaceAsPlus) + Encoded(s[1..], spaceAsPlus)
  }

  predicate IsEscape(s: ByteString) {
    |s| >= 3 && s[0] == '%' && IsHexDigit(s[1]) && IsHexDigit(s[2])
  }

  function Decoded(s: ByteString, spaceAsPlus: bool): ByteString {
    if s == [] then []
    else if s[0] == '+' && spaceAsPlus then [' '] + Decoded(s[1..], spaceAsPlus)
    else if IsEscape(s) then
      [(HexValue(s[1]) * 16 + HexValue(s[2])) as char] + Decoded(s[3..], spaceAsPlus)
    else [s[0]] + Decoded(s[1..], spaceAsPlus)
  }

  // The output buffer is allocated only when a byte first has to change; until
  // then the result so far is the input so far.
  ghost function Flushed(buffer: Option<ByteString>, untouched: ByteString): ByteString {
    if buffer.None? then untouched else buffer.value
  }

  lemma CodedNothing(b: bool)
    ensures Encoded([], b) == [] && Decoded([], b) == []
  {
  }

  lemma EncodeStep(done: ByteString, s: ByteString, c: nat, b: bool)
    requires c < |s|
    ensures done + Encoded(s[c..], b) == (done + EncodedByte(s[c], b)) + Encoded(s[c + 1..], b)
  {
    assert s[c..][1..] == s[c + 1..];
  }

  method UrlEncode(str: ByteString, spaceAsPlus: bool) returns (r: ByteString)
    ensures r == Encoded(str, spaceAsPlus)
  {
    hide Encoded, IsUnreserved;
    CodedNothing(spaceAsPlus);
    var ss: Option<ByteString> := None;
    var c := 0;
    while c < |str|
      invariant 0 <= c <= |str|
      invariant Encoded(str, spaceAsPlus) == Flushed(ss, str[..c]) + Encoded(str[c..], spaceAsPlus)
    {
      EncodeStep(Flushed(ss, str[..c]), str, c, spaceAsPlus);
      assert str[..c + 1] == str[..c] + [str[c]];
      if !IsUnreserved(str[c]) {
        if ss.None? {
          ss := Some(str[..c]);
        }
        if str[c] == ' ' && spaceAsPlus {
          ss := Some(ss.value + ['+']);
        } else {
          ss := Some(ss.value + ['%', HEX_DIGITS[str[c] as int / 16], HEX_DIGITS[str[c] as int % 16]]);
        }
      } else if ss.Some? {
        ss := Some(ss.value + [str[c]]);
      }
      c := c + 1;
    }
    assert str[c..] == [] && str[..c] == str;
    r := if ss.None? then str else ss.value;
  }

  // What one round of the decoder appends, and how many bytes it reads.
  function DecodedUnit(s: ByteString, spaceAsPlus: bool): (ByteString, nat)
    requires s != []
  {
    if s[0] == '+' && spaceAsPlus then ([' '], 1)
    else if IsEscape(s) then ([(HexValue(s[1]) * 16 + HexValue(s[2])) as char], 3)
    else ([s[0]], 1)
  }

  lemma DecodeStep(done: ByteString, s: ByteString, c: nat, b: bool)
    requires c < |s|
    ensures var (unit, n) := DecodedUnit(s[c..], b);
      c + n <= |s| && done + Decoded(s[c..], b) == (done + unit) + Decoded(s[c + n..], b)
  {
    assert s[c..][1..] == s[c + 1..];
    if IsEscape(s[c..]) {
      assert s[c..][3..] == s[c + 3..];
    }
  }

  method UrlDecode(str: ByteString, spaceAsPlus: bool) returns (r: ByteString)
    ensures r == Decoded(str, spaceAsPlus)
  {
    hide Decoded, IsHexDigit, HexValue;
    CodedNothing(spaceAsPlus);
    var ss: Option<ByteString> := None;
    var c := 0;
    while c < |str|
      invariant 0 <= c <= |str|
      invariant Decoded(str, spaceAsPlus) == Flushed(ss, str[..c]) + Decoded(str[c..], spaceAsPlus)
    {
      DecodeStep(Flushed(ss, str[..c]), str, c, spaceAsPlus);
      if str[c] == '+' && spaceAsPlus {
        if ss.None? {
          ss := Some(str[..c]);
        }
        ss := Some(ss.value + [' ']);
      } else if str[c] == '%' && c + 2 < |str| && IsHexDigit(str[c + 1]) && IsHexDigit(str[c + 2]) {
        if ss.None? {
          ss := Some(str[..c]);
        }
        ss := Some(ss.value + [(HexValue(str[c + 1]) * 16 + HexValue(str[c + 2])) as char]);
        c := c + 2;
      } else if ss.Some? {
        ss := Some(ss.value + [str[c]]);
      } else {
        assert str[..c + 1] == str[..c] + [str[c]];
      }
      c := c + 1;
    }
    assert str[c..] == [] && str[..c] == str;
    r := if ss.None? then str else ss.value;
  }

  // ---- Round trip ---------------------------------------------------------

  lemma HexDigitsInvert(c: Byte)
    ensures var hi, lo := HEX_DIGITS[c as int / 16], HEX_DIGITS[c as int % 16];
      IsHexDigit(hi) && IsHexDigit(lo) && HexValue(hi) * 16 + HexValue(lo) == c as int
  {
    assert forall d: int | 0 <= d < 16 ::
      IsHexDigit(HEX_DIGITS[d]) && HexValue(HEX_DIGITS[d]) == d;
  }

  lemma NotCoded(c: Byte)
    ensures IsUnreserved(c) ==> c != '%' && c != '+'
  {
  }

  lemma DecodeFirst(c: Byte, rest: ByteString, b: bool)
    ensures Decoded(EncodedByte(c, b) + rest, b) == [c] + Decoded(rest, b)
  {
    hide IsUnreserved;
    NotCoded(c);
    var e := EncodedByte(c, b);
    if |e| == 1 {
      assert (e + rest)[1..] == rest;
    } else {
      HexDigitsInvert(c);
      assert (e + rest)[3..] == rest;
      assert IsEscape(e + rest);
    }
  }

  // Decoding undoes encoding, for every byte string and both settings of the flag.
  lemma {:induction false} RoundTrip(s: ByteString, b: bool)
    ensures Decoded(Encoded(s, b), b) == s
  {
    if s != [] {
      DecodeFirst(s[0], Encoded(s[1..], b), b);
      RoundTrip(s[1..], b);
    }
  }

  lemma {:induction false} EncodedConcat(a: ByteString, c: ByteString, b: bool)
    ensures Encoded(a + c, b) == Encoded(a, b) + Encoded(c, b)
  {
    if a == [] {
      assert a + c == c;
    } else {
      assert (a + c)[1..] == a[1..] + c;
      EncodedConcat(a[1..], c, b);
    }
  }

  // Every byte of an encoding is unreserved, '%' or '+'; an '=' in it stands for
  // an '=' of the input.
  lemma {:induction false} EncodedAlphabet(s: ByteString, b: bool)
    ensures forall c <- Encoded(s, b) :: IsUnreserved(c) || c == '%' || c == '+'
    ensures '=' in Encoded(s, b) <==> '=' in s
  {
    if s != [] {
      assert forall d: int | 0 <= d < 16 :: IsUnreserved(HEX_DIGITS[d]) && HEX_DIGITS[d] != '=';
      EncodedAlphabet(s[1..], b);
      assert s == [s[0]] + s[1..];
    }
  }

  // ---- What the encoder writes -----------------------------------------------

  // Letters, digits and five marks stay; a space becomes a plus sign where that is asked for;
  // any other byte becomes a percent sign and two upper-case hexadecimal digits.
  lemma EncodedIs(c: Byte, b: bool)
    ensures Encoded([c], b)
         == if Among(c, UPPER) || Among(c, LOWER) || Among(c, "0123456789-.=_~") then [c]
            else if c == ' ' && b then ['+']
            else ['%', "0123456789ABCDEF"[c as int / 16], "0123456789ABCDEF"[c as int % 16]]
  {
    LettersAre(c);
    var kept := "0123456789-.=_~";
    assert kept[10] == '-' && kept[11] == '.' && kept[12] == '=' && kept[13] == '_' && kept[14] == '~';
    if '0' <= c <= '9' {
      assert kept[c as int - '0' as int] == c;
    }
    assert [c][1..] == [];
    CodedNothing(b);
  }

  // ---- What the decoder makes of any text ----------------------------------------

  // A text is read as bytes that stand for themselves, plus signs, percent signs that begin
  // no escape, and escapes, each digit of which can be in either case.
  datatype Unit = Plain(c: Byte) | Plus | Percent | Escape(value: Byte, lower1: bool, lower2: bool)

  function Hex(d: nat, lower: bool): Byte
    requires d < 16
  {
    if lower then "0123456789abcdef"[d] else "0123456789ABCDEF"[d]
  }

  function UnitText(u: Unit): ByteString {
    match u
    case Plain(c) => [c] case Plus => ['+'] case Percent => ['%']
    case Escape(v, l1, l2) => ['%', Hex(v as int / 16, l1), Hex(v as int % 16, l2)]
  }

  function UnitByte(u: Unit, spaceAsPlus: bool): Byte {
    match u
    case Plain(c) => c case Plus => (if spaceAsPlus then ' ' else '+') case Percent => '%' case Escape(v, _, _) => v
  }

  function UnitsText(us: seq<Unit>): ByteString {
    if us == [] then [] else UnitText(us[0]) + UnitsText(us[1..])
  }

  function UnitBytes(us: seq<Unit>, spaceAsPlus: bool): ByteString {
    if us == [] then [] else [UnitByte(us[0], spaceAsPlus)] + UnitBytes(us[1..], spaceAsPlus)
  }

  // Two hexadecimal digits come next.
  predicate DigitsNext(s: ByteString) {
    |s| >= 2 && (forall i :: 0 <= i < 2 ==> exists d: nat, l: bool :: d < 16 && s[i] == Hex(d, l))
  }

  predicate UnitsOk(us: seq<Unit>) {
    us == []
    || (UnitsOk(us[1..])
        && match us[0]
           case Plain(c) => c != '%' && c != '+' case Percent => !DigitsNext(UnitsText(us[1..])) case _ => true)
  }

  lemma HexIs(c: Byte)
    ensures IsHexDigit(c) <==> exists d: nat, l: bool :: d < 16 && c == Hex(d, l)
  {
    if '0' <= c <= '9' {
      assert c == Hex(c as int - '0' as int, false);
    } else if 'a' <= c <= 'f' {
      assert c == Hex(c as int - 'a' as int + 10, true);
    } else if 'A' <= c <= 'F' {
      assert c == Hex(c as int - 'A' as int + 10, false);
    }
  }

  lemma HexMeans(d: nat, l: bool)
    requires d < 16
    ensures IsHexDigit(Hex(d, l)) && HexValue(Hex(d, l)) == d
  {
  }

  lemma EscapeNext(s: ByteString)
    requires s != []
    ensures IsEscape(s) <==> s[0] == '%' && DigitsNext(s[1..])
  {
    hide IsHexDigit, Hex;
    if |s| >= 3 {
      assert s[1..][0] == s[1] && s[1..][1] == s[2];
      HexIs(s[1]);
      HexIs(s[2]);
    }
  }

  // Every unit of a text becomes the one byte that it stands for.
  lemma {:induction false} DecodedUnits(us: seq<Unit>, b: bool)
    requires UnitsOk(us)
    ensures Decoded(UnitsText(us), b) == UnitBytes(us, b)
  {
    hide IsHexDigit, HexValue, Hex, DigitsNext, IsEscape;
    if us != [] {
      var t, more := UnitsText(us), UnitsText(us[1..]);
      DecodedUnits(us[1..], b);
      EscapeNext(t);
      match us[0]
      case Escape(v, l1, l2) =>
        HexMeans(v as int / 16, l1);
        HexMeans(v as int % 16, l2);
        EscapeIs(t);
        assert t[3..] == more && t[1] == Hex(v as int / 16, l1) && t[2] == Hex(v as int % 16, l2);
      case _ => assert t[1..] == more;
    }
  }

  lemma EscapeIs(s: ByteString)
    ensures IsEscape(s) <==> |s| >= 3 && s[0] == '%' && IsHexDigit(s[1]) && IsHexDigit(s[2])
  {
  }

  // And every text is made of such units.
  lemma {:induction false} EveryText(s: ByteString) returns (us: seq<Unit>)
    ensures UnitsOk(us) && UnitsText(us) == s
    decreases |s|
  {
    hide IsHexDigit, HexValue, Hex, DigitsNext, IsEscape;
    us := [];
    if s != [] {
      EscapeNext(s);
      EscapeIs(s);
      var u, n := Plain(s[0]), 1;
      if s[0] == '+' {
        u := Plus;
      } else if IsEscape(s) {
        HexIs(s[1]);
        HexIs(s[2]);
        var d1, l1 :| 0 <= d1 < 16 && s[1] == Hex(d1, l1);
        var d2, l2 :| 0 <= d2 < 16 && s[2] == Hex(d2, l2);
        u, n := Escape((d1 * 16 + d2) as char, l1, l2), 3;
        assert (d1 * 16 + d2) / 16 == d1 && (d1 * 16 + d2) % 16 == d2;
      } else if s[0] == '%' {
        u := Percent;
      }
      var more := EveryText(s[n..]);
      us := [u] + more;
      assert us[0] == u && us[1..] == more;
      assert UnitText(u) == s[..n];
      assert s[..n] + s[n..] == s;
    }
  }
}
