// The states, flags and fields of http_parser.c, and its character classes.
module HttpTypes {
  import opened Bytes

  datatype State =
    | Dead
    | StartReqOrRes | ResOrRespH
    | StartRes | ResH | ResHT | ResHTT | ResHTTP
    | ResHttpMajor | ResHttpDot | ResHttpMinor | ResHttpEnd
    | ResFirstStatusCode | ResStatusCode | ResStatusStart | ResStatus | ResLineAlmostDone
    | StartReq | ReqMethod | ReqSpacesBeforeUrl
    | ReqSchema | ReqSchemaSlash | ReqSchemaSlashSlash
    | ReqServerStart | ReqServer | ReqServerWithAt
    | ReqPath | ReqQueryStringStart | ReqQueryString | ReqFragmentStart | ReqFragment
    | ReqHttpStart | ReqHttpH | ReqHttpHT | ReqHttpHTT | ReqHttpHTTP | ReqHttpI | ReqHttpIC
    | ReqHttpMajor | ReqHttpDot | ReqHttpMinor | ReqHttpEnd | ReqLineAlmostDone
    | HeaderFieldStart | HeaderField
    | HeaderValueDiscardWs | HeaderValueDiscardWsAlmostDone | HeaderValueDiscardLws
    | HeaderValueStart | HeaderValue | HeaderValueLws | HeaderAlmostDone
    | ChunkSizeStart | ChunkSize | ChunkParameters | ChunkSizeAlmostDone
    | HeadersAlmostDone | HeadersDone
    | ChunkData | ChunkDataAlmostDone | ChunkDataDone
    | BodyIdentity | BodyIdentityEof
    | MessageDone

  // The macro PARSING_HEADER: every state up to and including s_headers_done.
  predicate ParsingHeader(s: State) {
    !s.ChunkData? && !s.ChunkDataAlmostDone? && !s.ChunkDataDone?
    && !s.BodyIdentity? && !s.BodyIdentityEof? && !s.MessageDone?
  }

  datatype HeaderState =
    | General | C | CO | CON
    | MatchingConnection | MatchingProxyConnection | MatchingContentLength
    | MatchingTransferEncoding | MatchingUpgrade
    | Connection | ContentLength | ContentLengthNum | ContentLengthWs
    | TransferEncoding | Upgrade
    | MatchingTransferEncodingChunked
    | MatchingConnectionTokenStart | MatchingConnectionKeepAlive | MatchingConnectionClose
    | MatchingConnectionUpgrade | MatchingConnectionToken
    | TransferEncodingChunked | ConnectionKeepAlive | ConnectionClose | ConnectionUpgrade

  datatype Errno =
    | OK | InvalidEofState | HeaderOverflow | ClosedConnection | InvalidVersion | InvalidStatus
    | InvalidMethod | InvalidUrl | LfExpected | InvalidHeaderToken | InvalidContentLength
    | UnexpectedContentLength | InvalidChunkSize | InvalidConstant | StrictError

  datatype ParserType = HttpRequest | HttpResponse | HttpBoth

  datatype Method =
    | DELETE | GET | HEAD | POST | PUT | CONNECT | OPTIONS | TRACE
    | COPY | LOCK | MKCOL | MOVE | PROPFIND | PROPPATCH | SEARCH | UNLOCK | BIND | REBIND | UNBIND | ACL
    | REPORT | MKACTIVITY | CHECKOUT | MERGE
    | MSEARCH | NOTIFY | SUBSCRIBE | UNSUBSCRIBE
    | PATCH | PURGE | MKCALENDAR | LINK | UNLINK | SOURCE

  datatype Flags = Flags(chunked: bool, keepAlive: bool, close: bool, connectionUpgrade: bool,
                         trailing: bool, upgrade: bool, skipBody: bool, contentLength: bool)

  const NO_FLAGS := Flags(false, false, false, false, false, false, false, false)

  // ULLONG_MAX, the "no length given" sentinel.
  const NO_LENGTH: int := TWO_64 - 1

  datatype Fields = Fields(ty: ParserType, flags: Flags, state: State, hstate: HeaderState, index: nat,
                           lenient: bool, nread: nat, contentLength: nat,
                           major: nat, minor: nat, status: nat, verb: Method, upgrade: bool)

  // http_parser_init: all zeros but the type and the start state.
  function InitialFields(ty: ParserType, lenient: bool): Fields {
    Fields(ty, NO_FLAGS,
           match ty case HttpRequest => StartReq case HttpResponse => StartRes case HttpBoth => StartReqOrRes,
           General, 0, lenient, 0, 0, 0, 0, 0, DELETE, false)
  }

  // ---- What the recording callbacks see ------------------------------------

  datatype DataKind = FieldData | ValueData | UrlData | BodyData | StatusData
  datatype Note = MessageBegin | HeadersComplete | MessageComplete | ChunkHeader | ChunkComplete
  datatype Event = Data(kind: DataKind, bytes: ByteString) | Notify(note: Note)

  // Callbacks in order, oldest innermost. Adjacent data callbacks of one kind are
  // one event: how often a kind is reported is not part of the callback stream.
  datatype Log = Empty | Snoc(before: Log, last: Event)

  function Append(l: Log, k: DataKind, b: ByteString): Log {
    match l
    case Snoc(l', Data(k', b')) => if k == k' then Snoc(l', Data(k, b' + b)) else Snoc(l, Data(k, b))
    case _ => Snoc(l, Data(k, b))
  }

  predicate EndsIn(l: Log, k: DataKind) {
    l.Snoc? && l.last.Data? && l.last.kind == k
  }

  lemma AppendTwice(l: Log, k: DataKind, a: ByteString, b: ByteString)
    ensures Append(Append(l, k, a), k, b) == Append(l, k, a + b)
  {
    if EndsIn(l, k) {
      assert l.last.bytes + a + b == l.last.bytes + (a + b);
    }
  }

  lemma AppendNothing(l: Log, k: DataKind)
    requires EndsIn(l, k)
    ensures Append(l, k, []) == l
  {
    assert l.last.bytes + [] == l.last.bytes;
  }

  // ---- Character classes (strict mode) --------------------------------------

  const CR: Byte := '\r'
  const LF: Byte := '\n'
  const FF: Byte := '\U{000C}'

  // c | 0x20, as the macro LOWER computes it for every byte.
  function Lower(c: Byte): Byte {
    if c as int / 32 % 2 == 1 then c else (c as int + 32) as char
  }

  predicate IsAlpha(c: Byte) { 'a' <= Lower(c) <= 'z' }
  predicate IsNum(c: Byte) { '0' <= c <= '9' }
  predicate IsAlphaNum(c: Byte) { IsAlpha(c) || IsNum(c) }
  predicate IsHex(c: Byte) { IsNum(c) || 'a' <= Lower(c) <= 'f' }

  predicate IsMark(c: Byte) {
    || c == '-' || c == '_' || c == '.' || c == '!' || c == '~' || c == '*' || c == '\'' || c == '(' || c == ')'
  }

  predicate IsUserInfoChar(c: Byte) {
    || IsAlphaNum(c) || IsMark(c) || c == '%' || c == ';' || c == ':' || c == '&' || c == '='
    || c == '+' || c == '$' || c == ','
  }

  predicate IsHostChar(c: Byte) { IsAlphaNum(c) || c == '.' || c == '-' }

  // The table normal_url_char: visible ASCII but '#' and '?'.
  predicate IsUrlChar(c: Byte) { '!' <= c <= '~' && c != '#' && c != '?' }

  predicate IsHeaderChar(c: Byte) {
    c == CR || c == LF || c == '\t' || (31 < c as int && c as int != 127)
  }

  // The table tokens without its entry for ' ': the lower-cased byte, or NUL.
  function Token(c: Byte): Byte {
    if 'A' <= c <= 'Z' then Lower(c)
    else if || 'a' <= c <= 'z' || IsNum(c)
            || c == '!' || c == '#' || c == '$' || c == '%' || c == '&' || c == '\'' || c == '*' || c == '+'
            || c == '-' || c == '.' || c == '^' || c == '_' || c == '`' || c == '|' || c == '~' then c
    else '\0'
  }

  function Unhex(c: Byte): (v: int)
    ensures -1 <= v < 16
  {
    if IsNum(c) then c as int - '0' as int
    else if 'a' <= c <= 'f' then c as int - 'a' as int + 10
    else if 'A' <= c <= 'F' then c as int - 'A' as int + 10
    else -1
  }

  function Digit(c: Byte): nat
    requires IsNum(c)
  {
    c as int - '0' as int
  }
}
