// The character classes of http_parser.c, byte by byte.
module HttpChars {
  import opened Bytes
  import opened HttpTypes
  import opened UrlSplit

  predicate IsLetter(c: Byte) { Among(c, UPPER) || Among(c, LOWER) }

  const DIGITS: string := "0123456789"

  lemma DigitsAre(c: Byte)
    ensures Among(c, DIGITS) <==> '0' <= c <= '9'
  {
    assert forall i: int | 0 <= i < 10 :: DIGITS[i] as int == '0' as int + i;
    if '0' <= c <= '9' {
      assert DIGITS[c as int - '0' as int] == c;
    }
  }

  lemma LowerIs(c: Byte)
    ensures Lower(c) as int == if c as int % 64 < 32 then c as int + 32 else c as int
  {
  }

  lemma AlphaIs(c: Byte)
    ensures IsAlpha(c) <==> IsLetter(c)
    ensures IsNum(c) <==> Among(c, DIGITS)
    ensures IsHex(c) <==> Among(c, DIGITS) || Among(c, "abcdefABCDEF")
  {
    LettersAre(c);
    DigitsAre(c);
    var hex := "abcdefABCDEF";
    assert hex[0] == 'a' && hex[1] == 'b' && hex[2] == 'c' && hex[3] == 'd' && hex[4] == 'e' && hex[5] == 'f';
    assert hex[6] == 'A' && hex[7] == 'B' && hex[8] == 'C' && hex[9] == 'D' && hex[10] == 'E' && hex[11] == 'F';
  }

  // A host name has letters, digits, dots and hyphens; user information has marks and some
  // delimiters besides.
  lemma AuthorityChars(c: Byte)
    ensures IsHostChar(c) <==> IsLetter(c) || Among(c, DIGITS) || Among(c, ".-")
    ensures IsUserInfoChar(c) <==> IsLetter(c) || Among(c, DIGITS) || Among(c, "-_.!~*'()%;:&=+$,")
  {
    hide IsAlpha, IsNum;
    AlphaIs(c);
    var dots, marks := ".-", "-_.!~*'()%;:&=+$,";
    assert dots[0] == '.' && dots[1] == '-';
    assert marks[0] == '-' && marks[1] == '_' && marks[2] == '.' && marks[3] == '!' && marks[4] == '~';
    assert marks[5] == '*' && marks[6] == '\'' && marks[7] == '(' && marks[8] == ')' && marks[9] == '%';
    assert marks[10] == ';' && marks[11] == ':' && marks[12] == '&' && marks[13] == '=' && marks[14] == '+';
    assert marks[15] == '$' && marks[16] == ',';
  }

  // The bytes of an address in brackets, and those of its zone.
  lemma AddressChars(c: Byte)
    ensures V6Char(c) <==> Among(c, DIGITS) || Among(c, "abcdefABCDEF") || Among(c, ":.")
    ensures ZoneChar(c) <==> IsLetter(c) || Among(c, DIGITS) || Among(c, "%.-_~")
  {
    hide IsAlpha, IsNum, IsHex;
    AlphaIs(c);
    var dots, marks := ":.", "%.-_~";
    assert dots[0] == ':' && dots[1] == '.';
    assert marks[0] == '%' && marks[1] == '.' && marks[2] == '-' && marks[3] == '_' && marks[4] == '~';
  }

  // A token has letters, which are compared in lower case, digits and these marks; no other
  // byte is in it.
  lemma TokenChars(c: Byte)
    ensures Token(c) == if Among(c, UPPER) then (c as int + 32) as char
                        else if Among(c, LOWER) || Among(c, DIGITS) || Among(c, "!#$%&'*+-.^_`|~") then c else '\0'
  {
    LettersAre(c);
    DigitsAre(c);
    var marks := "!#$%&'*+-.^_`|~";
    assert marks[0] == '!' && marks[1] == '#' && marks[2] == '$' && marks[3] == '%' && marks[4] == '&';
    assert marks[5] == '\'' && marks[6] == '*' && marks[7] == '+' && marks[8] == '-' && marks[9] == '.';
    assert marks[10] == '^' && marks[11] == '_' && marks[12] == '`' && marks[13] == '|' && marks[14] == '~';
  }

  // A header value has any byte but control characters other than tabs and line ends; a URL
  // has the visible ones of ASCII, '#' and '?' apart.
  lemma TextChars(c: Byte)
    ensures IsHeaderChar(c) <==> c as int in {9, 10, 13} || 32 <= c as int < 127 || 128 <= c as int
    ensures IsUrlChar(c) <==> 33 <= c as int <= 126 && c as int != 35 && c as int != 63
  {
  }

  // A hexadecimal digit in either case has its value, and any other byte has none.
  lemma HexDigit(c: Byte, d: nat)
    requires d < 16
    ensures Unhex(c) == d <==> c == "0123456789abcdef"[d] || c == "0123456789ABCDEF"[d]
    ensures Unhex(c) == -1 <==> !IsHex(c)
  {
  }
}
