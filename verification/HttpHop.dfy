// One pass through the switch of http_parser_execute on one byte, in strict
// mode: what the parser's fields become, which mark is set, which data callback
// fires, which notification, and where control goes next. The five cases that
// the source runs as bulk loops are given here for a single byte.
module HttpHop {
  import opened Bytes
  import opened HttpTypes
  import opened UrlChars

  // break to the next byte; goto reexecute; return; goto error; a failed assert.
  datatype Flow = Done | Again | Quit | Fail(err: Errno) | Abort

  // A data callback for what the mark holds, without or with the current byte.
  datatype Flush = NoFlush | Flush(kind: DataKind) | FlushThrough(kind: DataKind)

  datatype Hop = Hop(f: Fields, mark: Option<DataKind>, flush: Flush, note: Option<Note>, flow: Flow)

  function Stay(f: Fields): Hop { Hop(f, None, NoFlush, None, Done) }
  function Go(f: Fields, s: State): Hop { Hop(f.(state := s), None, NoFlush, None, Done) }
  function Redo(f: Fields, s: State): Hop { Hop(f.(state := s), None, NoFlush, None, Again) }
  function Err(f: Fields, e: Errno): Hop { Hop(f, None, NoFlush, None, Fail(e)) }
  function Crash(f: Fields): Hop { Hop(f, None, NoFlush, None, Abort) }
  function Tell(f: Fields, s: State, n: Note): Hop { Hop(f.(state := s), None, NoFlush, Some(n), Done) }
  function Expect(c: bool, f: Fields, s: State): Hop { if c then Go(f, s) else Err(f, StrictError) }

  // ---- Message framing -------------------------------------------------------

  predicate MessageNeedsEof(f: Fields) {
    && f.ty != HttpRequest
    && f.status / 100 != 1 && f.status != 204 && f.status != 304 && !f.flags.skipBody
    && !f.flags.chunked && f.contentLength == NO_LENGTH
  }

  predicate ShouldKeepAlive(f: Fields) {
    && (if f.major > 0 && f.minor > 0 then !f.flags.close else f.flags.keepAlive)
    && !MessageNeedsEof(f)
  }

  // The macro NEW_MESSAGE in strict mode.
  function NewMessage(f: Fields): State {
    if !ShouldKeepAlive(f) then Dead else if f.ty == HttpRequest then StartReq else StartRes
  }

  // ---- Start of a message and the response line ------------------------------

  function Fresh(f: Fields): Fields {
    f.(flags := NO_FLAGS, contentLength := NO_LENGTH)
  }

  predicate IsResponseState(s: State) {
    || s.Dead? || s.StartReqOrRes? || s.ResOrRespH? || s.StartRes? || s.ResH? || s.ResHT? || s.ResHTT?
    || s.ResHTTP? || s.ResHttpMajor? || s.ResHttpDot? || s.ResHttpMinor? || s.ResHttpEnd?
    || s.ResFirstStatusCode? || s.ResStatusCode? || s.ResStatusStart? || s.ResStatus? || s.ResLineAlmostDone?
  }

  function ResponseHop(f: Fields, ch: Byte): Hop
    requires IsResponseState(f.state)
  {
    match f.state
    case Dead => if ch == CR || ch == LF then Stay(f) else Err(f, ClosedConnection)
    case StartReqOrRes =>
      if ch == CR || ch == LF then Stay(f)
      else if ch == 'H' then Tell(Fresh(f), ResOrRespH, MessageBegin)
      else Redo(Fresh(f).(ty := HttpRequest), StartReq)
    case ResOrRespH =>
      if ch == 'T' then Go(f.(ty := HttpResponse), ResHT)
      else if ch != 'E' then Err(f, InvalidConstant)
      else Go(f.(ty := HttpRequest, verb := HEAD, index := 2), ReqMethod)
    case StartRes =>
      if ch == CR || ch == LF then Stay(f)
      else if ch == 'H' then Tell(Fresh(f), ResH, MessageBegin)
      else Err(Fresh(f), InvalidConstant)
    case ResH => Expect(ch == 'T', f, ResHT)
    case ResHT => Expect(ch == 'T', f, ResHTT)
    case ResHTT => Expect(ch == 'P', f, ResHTTP)
    case ResHTTP => Expect(ch == '/', f, ResHttpMajor)
    case ResHttpMajor => if IsNum(ch) then Go(f.(major := Digit(ch)), ResHttpDot) else Err(f, InvalidVersion)
    case ResHttpDot => if ch == '.' then Go(f, ResHttpMinor) else Err(f, InvalidVersion)
    case ResHttpMinor => if IsNum(ch) then Go(f.(minor := Digit(ch)), ResHttpEnd) else Err(f, InvalidVersion)
    case ResHttpEnd => if ch == ' ' then Go(f, ResFirstStatusCode) else Err(f, InvalidVersion)
    case ResFirstStatusCode =>
      if IsNum(ch) then Go(f.(status := Digit(ch)), ResStatusCode)
      else if ch == ' ' then Stay(f)
      else Err(f, InvalidStatus)
    case ResStatusCode =>
      if IsNum(ch) then
        var code := f.status * 10 + Digit(ch);
        if code > 999 then Err(f.(status := code), InvalidStatus) else Stay(f.(status := code))
      else if ch == ' ' then Go(f, ResStatusStart)
      else if ch == CR || ch == LF then Redo(f, ResStatusStart)
      else Err(f, InvalidStatus)
    case ResStatusStart =>
      Hop(f.(state := ResStatus, index := 0), Some(StatusData), NoFlush, None,
          if ch == CR || ch == LF then Again else Done)
    case ResStatus =>
      if ch == CR then Hop(f.(state := ResLineAlmostDone), None, Flush(StatusData), None, Done)
      else if ch == LF then Hop(f.(state := HeaderFieldStart), None, Flush(StatusData), None, Done)
      else Stay(f)
    case ResLineAlmostDone => Expect(ch == LF, f, HeaderFieldStart)
  }

  // ---- The request line -------------------------------------------------------

  function MethodName(m: Method): string {
    match m
    case DELETE => "DELETE" case GET => "GET" case HEAD => "HEAD" case POST => "POST" case PUT => "PUT"
    case CONNECT => "CONNECT" case OPTIONS => "OPTIONS" case TRACE => "TRACE" case COPY => "COPY"
    case LOCK => "LOCK" case MKCOL => "MKCOL" case MOVE => "MOVE" case PROPFIND => "PROPFIND"
    case PROPPATCH => "PROPPATCH" case SEARCH => "SEARCH" case UNLOCK => "UNLOCK" case BIND => "BIND"
    case REBIND => "REBIND" case UNBIND => "UNBIND" case ACL => "ACL" case REPORT => "REPORT"
    case MKACTIVITY => "MKACTIVITY" case CHECKOUT => "CHECKOUT" case MERGE => "MERGE"
    case MSEARCH => "M-SEARCH" case NOTIFY => "NOTIFY" case SUBSCRIBE => "SUBSCRIBE"
    case UNSUBSCRIBE => "UNSUBSCRIBE" case PATCH => "PATCH" case PURGE => "PURGE"
    case MKCALENDAR => "MKCALENDAR" case LINK => "LINK" case UNLINK => "UNLINK" case SOURCE => "SOURCE"
  }

  // The candidate a first letter selects.
  function FirstCandidate(ch: Byte): Option<Method> {
    match ch
    case 'A' => Some(ACL) case 'B' => Some(BIND) case 'C' => Some(CONNECT) case 'D' => Some(DELETE)
    case 'G' => Some(GET) case 'H' => Some(HEAD) case 'L' => Some(LOCK) case 'M' => Some(MKCOL)
    case 'N' => Some(NOTIFY) case 'O' => Some(OPTIONS) case 'P' => Some(POST) case 'R' => Some(REPORT)
    case 'S' => Some(SUBSCRIBE) case 'T' => Some(TRACE) case 'U' => Some(UNLOCK)
    case _ => None
  }

  // The candidate that replaces m when the byte at position i is not m's.
  function NextCandidate(m: Method, i: nat, ch: Byte): Option<Method> {
    match (m, i, ch)
    case (POST, 1, 'U') => Some(PUT)
    case (POST, 1, 'A') => Some(PATCH)
    case (POST, 1, 'R') => Some(PROPFIND)
    case (PUT, 2, 'R') => Some(PURGE)
    case (CONNECT, 1, 'H') => Some(CHECKOUT)
    case (CONNECT, 2, 'P') => Some(COPY)
    case (MKCOL, 1, 'O') => Some(MOVE)
    case (MKCOL, 1, 'E') => Some(MERGE)
    case (MKCOL, 1, '-') => Some(MSEARCH)
    case (MKCOL, 2, 'A') => Some(MKACTIVITY)
    case (MKCOL, 3, 'A') => Some(MKCALENDAR)
    case (SUBSCRIBE, 1, 'E') => Some(SEARCH)
    case (SUBSCRIBE, 1, 'O') => Some(SOURCE)
    case (REPORT, 2, 'B') => Some(REBIND)
    case (PROPFIND, 4, 'P') => Some(PROPPATCH)
    case (LOCK, 1, 'I') => Some(LINK)
    case (UNLOCK, 2, 'S') => Some(UNSUBSCRIBE)
    case (UNLOCK, 2, 'B') => Some(UNBIND)
    case (UNLOCK, 3, 'I') => Some(UNLINK)
    case _ => None
  }

  function MethodHop(f: Fields, ch: Byte): Hop {
    var name := MethodName(f.verb);
    if ch == '\0' then Err(f, InvalidMethod)
    else if ch == ' ' && f.index == |name| then Go(f.(index := f.index + 1), ReqSpacesBeforeUrl)
    else if f.index < |name| && ch == name[f.index] then Stay(f.(index := f.index + 1))
    else if f.index > |name| then Crash(f)   // a read past the end of the method's name
    else if NextCandidate(f.verb, f.index, ch).Some? then
      Stay(f.(verb := NextCandidate(f.verb, f.index, ch).value, index := f.index + 1))
    else Err(f, InvalidMethod)
  }

  predicate IsUrlState(s: State) {
    || s.ReqSchema? || s.ReqSchemaSlash? || s.ReqSchemaSlashSlash? || s.ReqServerStart? || s.ReqServer?
    || s.ReqServerWithAt? || s.ReqPath? || s.ReqQueryStringStart? || s.ReqQueryString?
    || s.ReqFragmentStart? || s.ReqFragment?
  }

  function UrlHop(f: Fields, ch: Byte): Hop
    requires IsUrlState(f.state)
  {
    var early := f.state.ReqSchema? || f.state.ReqSchemaSlash? || f.state.ReqSchemaSlashSlash?
                 || f.state.ReqServerStart?;
    if early && (ch == ' ' || ch == CR || ch == LF) then Err(f, InvalidUrl)
    else if ch == ' ' then Hop(f.(state := ReqHttpStart), None, Flush(UrlData), None, Done)
    else if ch == CR || ch == LF then
      Hop(f.(major := 0, minor := 9, state := if ch == CR then ReqLineAlmostDone else HeaderFieldStart),
          None, Flush(UrlData), None, Done)
    else UrlStep(f, f.state, ch, None)
  }

  function UrlStep(f: Fields, from: State, ch: Byte, mark: Option<DataKind>): Hop {
    var s := ParseUrlChar(from, ch);
    if s.Dead? then Err(f.(state := Dead), InvalidUrl) else Hop(f.(state := s), mark, NoFlush, None, Done)
  }

  predicate IsRequestState(s: State) {
    || s.StartReq? || s.ReqMethod? || s.ReqSpacesBeforeUrl? || s.ReqHttpStart? || s.ReqHttpH? || s.ReqHttpHT?
    || s.ReqHttpHTT? || s.ReqHttpHTTP? || s.ReqHttpI? || s.ReqHttpIC? || s.ReqHttpMajor? || s.ReqHttpDot?
    || s.ReqHttpMinor? || s.ReqHttpEnd? || s.ReqLineAlmostDone?
  }

  function RequestHop(f: Fields, ch: Byte): Hop
    requires IsRequestState(f.state)
  {
    match f.state
    case StartReq =>
      if ch == CR || ch == LF then Stay(f)
      else
        var g := Fresh(f);
        if !IsAlpha(ch) then Err(g, InvalidMethod)
        else if FirstCandidate(ch).None? then Err(g.(verb := DELETE, index := 1), InvalidMethod)
        else Tell(g.(verb := FirstCandidate(ch).value, index := 1), ReqMethod, MessageBegin)
    case ReqMethod => MethodHop(f, ch)
    case ReqSpacesBeforeUrl =>
      if ch == ' ' then Stay(f)
      else UrlStep(f, if f.verb == CONNECT then ReqServerStart else f.state, ch, Some(UrlData))
    case ReqHttpStart =>
      if ch == ' ' then Stay(f)
      else if ch == 'H' then Go(f, ReqHttpH)
      else if ch == 'I' && f.verb == SOURCE then Go(f, ReqHttpI)
      else Err(f, InvalidConstant)
    case ReqHttpH => Expect(ch == 'T', f, ReqHttpHT)
    case ReqHttpHT => Expect(ch == 'T', f, ReqHttpHTT)
    case ReqHttpHTT => Expect(ch == 'P', f, ReqHttpHTTP)
    case ReqHttpI => Expect(ch == 'C', f, ReqHttpIC)
    case ReqHttpIC => Expect(ch == 'E', f, ReqHttpHTTP)
    case ReqHttpHTTP => Expect(ch == '/', f, ReqHttpMajor)
    case ReqHttpMajor => if IsNum(ch) then Go(f.(major := Digit(ch)), ReqHttpDot) else Err(f, InvalidVersion)
    case ReqHttpDot => if ch == '.' then Go(f, ReqHttpMinor) else Err(f, InvalidVersion)
    case ReqHttpMinor => if IsNum(ch) then Go(f.(minor := Digit(ch)), ReqHttpEnd) else Err(f, InvalidVersion)
    case ReqHttpEnd =>
      if ch == CR then Go(f, ReqLineAlmostDone)
      else if ch == LF then Go(f, HeaderFieldStart)
      else Err(f, InvalidVersion)
    case ReqLineAlmostDone => if ch == LF then Go(f, HeaderFieldStart) else Err(f, LfExpected)
  }

  // ---- Header names -----------------------------------------------------------

  const CONNECTION: string := "connection"
  const PROXY_CONNECTION: string := "proxy-connection"
  const CONTENT_LENGTH: string := "content-length"
  const TRANSFER_ENCODING: string := "transfer-encoding"
  const UPGRADE: string := "upgrade"
  const CHUNKED: string := "chunked"
  const KEEP_ALIVE: string := "keep-alive"
  const CLOSE: string := "close"

  // Advance a matcher of word by one byte: to miss, to hit at the last letter of
  // word, or to stay.
  function Matched(word: string, i: nat, c: Byte, stay: HeaderState, hit: HeaderState, miss: HeaderState)
    : (r: HeaderState)
    ensures r == stay || r == hit || r == miss
    ensures i + 1 >= |word| ==> r == hit || r == miss
  {
    if i >= |word| || c != word[i] then miss
    else if i == |word| - 1 then hit
    else stay
  }

  function FirstFieldState(c: Byte): HeaderState {
    if c == 'c' then C
    else if c == 'p' then MatchingProxyConnection
    else if c == 't' then MatchingTransferEncoding
    else if c == 'u' then MatchingUpgrade
    else General
  }

  // One token byte of a header name; c is the lower-cased byte. None is the
  // failed assertion "Unknown header_state".
  function FieldNext(h: HeaderState, i: nat, c: Byte): Option<(HeaderState, nat)> {
    match h
    case General => Some((General, i))
    case C => Some((if c == 'o' then CO else General, i + 1))
    case CO => Some((if c == 'n' then CON else General, i + 1))
    case CON =>
      Some((if c == 'n' then MatchingConnection else if c == 't' then MatchingContentLength else General, i + 1))
    case MatchingConnection => Some((Matched(CONNECTION, i + 1, c, h, Connection, General), i + 1))
    case MatchingProxyConnection => Some((Matched(PROXY_CONNECTION, i + 1, c, h, Connection, General), i + 1))
    case MatchingContentLength => Some((Matched(CONTENT_LENGTH, i + 1, c, h, ContentLength, General), i + 1))
    case MatchingTransferEncoding =>
      Some((Matched(TRANSFER_ENCODING, i + 1, c, h, TransferEncoding, General), i + 1))
    case MatchingUpgrade => Some((Matched(UPGRADE, i + 1, c, h, Upgrade, General), i + 1))
    case Connection => Some((General, i))
    case ContentLength => Some((General, i))
    case TransferEncoding => Some((General, i))
    case Upgrade => Some((General, i))
    case _ => None
  }

  function FieldHop(f: Fields, ch: Byte): Hop {
    var c := Token(ch);
    if c != '\0' then
      match FieldNext(f.hstate, f.index, c)
      case None => Crash(f)
      case Some((h, i)) => Stay(f.(hstate := h, index := i))
    else if ch == ':' then Hop(f.(state := HeaderValueDiscardWs), None, Flush(FieldData), None, Done)
    else Err(f, InvalidHeaderToken)
  }

  // ---- Header values ----------------------------------------------------------

  function ValueStartHop(f: Fields, ch: Byte): Hop {
    var c := Lower(ch);
    var g := f.(state := HeaderValue, index := 0);
    if f.hstate.ContentLength? then
      if !IsNum(ch) then Hop(g, Some(ValueData), NoFlush, None, Fail(InvalidContentLength))
      else if f.flags.contentLength then Hop(g, Some(ValueData), NoFlush, None, Fail(UnexpectedContentLength))
      else
        var flags := f.flags.(contentLength := true);
        Hop(g.(flags := flags, contentLength := Digit(ch), hstate := ContentLengthNum),
            Some(ValueData), NoFlush, None, Done)
    else
      var flags := if f.hstate.Upgrade? then f.flags.(upgrade := true) else f.flags;
      Hop(g.(flags := flags, hstate := ValueStartState(f.hstate, c)), Some(ValueData), NoFlush, None, Done)
  }

  function ValueStartState(h: HeaderState, c: Byte): HeaderState {
    match h
    case TransferEncoding => if c == 'c' then MatchingTransferEncodingChunked else General
    case ContentLengthWs => h
    case Connection =>
      if c == 'k' then MatchingConnectionKeepAlive
      else if c == 'c' then MatchingConnectionClose
      else if c == 'u' then MatchingConnectionUpgrade
      else MatchingConnectionToken
    case MatchingConnectionTokenStart => h
    case _ => General
  }

  // One decimal digit more, refused before 64 bits could wrap.
  function AddDigit(f: Fields, ch: Byte): Result {
    if !IsNum(ch) then Bad(InvalidContentLength)
    else if (NO_LENGTH - 10) / 10 < f.contentLength then Bad(InvalidContentLength)
    else Good(f.(contentLength := (f.contentLength * 10 + Digit(ch)) % TWO_64, hstate := ContentLengthNum))
  }

  datatype Result = Good(f: Fields) | Bad(err: Errno) | Asserted

  // One byte of a header value that is neither CR nor LF.
  function ValueNext(f: Fields, ch: Byte): Result {
    if !f.lenient && !IsHeaderChar(ch) then Bad(InvalidHeaderToken)
    else match f.hstate
      case Connection => Asserted
      case TransferEncoding => Asserted
      case ContentLength => if ch == ' ' then Good(f) else AddDigit(f, ch)
      case ContentLengthNum => if ch == ' ' then Good(f.(hstate := ContentLengthWs)) else AddDigit(f, ch)
      case ContentLengthWs => if ch == ' ' then Good(f) else Bad(InvalidContentLength)
      case ConnectionKeepAlive => AfterToken(f, ch)
      case ConnectionClose => AfterToken(f, ch)
      case ConnectionUpgrade => AfterToken(f, ch)
      case _ => var (h, i) := ValueMatch(f.hstate, f.index, ch); Good(f.(hstate := h, index := i))
  }

  // The states that only look for known words.
  function ValueMatch(h: HeaderState, i: nat, ch: Byte): (HeaderState, nat) {
    var c := Lower(ch);
    match h
    case MatchingTransferEncodingChunked => (Matched(CHUNKED, i + 1, c, h, TransferEncodingChunked, General), i + 1)
    case MatchingConnectionTokenStart => (TokenStartState(c), i)
    case MatchingConnectionKeepAlive =>
      (Matched(KEEP_ALIVE, i + 1, c, h, ConnectionKeepAlive, MatchingConnectionToken), i + 1)
    case MatchingConnectionClose => (Matched(CLOSE, i + 1, c, h, ConnectionClose, MatchingConnectionToken), i + 1)
    case MatchingConnectionUpgrade =>
      (Matched(UPGRADE, i + 1, c, h, ConnectionUpgrade, MatchingConnectionToken), i + 1)
    case MatchingConnectionToken => if ch == ',' then (MatchingConnectionTokenStart, 0) else (h, i)
    case TransferEncodingChunked => (if ch == ' ' then h else General, i)
    case _ => (General, i)
  }

  function TokenStartState(c: Byte): HeaderState {
    if c == 'k' then MatchingConnectionKeepAlive
    else if c == 'c' then MatchingConnectionClose
    else if c == 'u' then MatchingConnectionUpgrade
    else if c != ' ' && Token(c) != '\0' then MatchingConnectionToken
    else if c == ' ' || c == '\t' then MatchingConnectionTokenStart
    else General
  }

  function AfterToken(f: Fields, ch: Byte): Result {
    if ch == ',' then Good(WithValueFlag(f).(hstate := MatchingConnectionTokenStart, index := 0))
    else if ch == ' ' then Good(f)
    else Good(f.(hstate := MatchingConnectionToken))
  }

  // The flag that a recognised Connection value stands for.
  function WithValueFlag(f: Fields): Fields {
    match f.hstate
    case ConnectionKeepAlive => f.(flags := f.flags.(keepAlive := true))
    case ConnectionClose => f.(flags := f.flags.(close := true))
    case ConnectionUpgrade => f.(flags := f.flags.(connectionUpgrade := true))
    case _ => f
  }

  function WithHeaderFlag(f: Fields): Fields {
    if f.hstate.TransferEncodingChunked? then f.(flags := f.flags.(chunked := true)) else WithValueFlag(f)
  }

  function ValueHop(f: Fields, ch: Byte): Hop {
    if ch == CR then Hop(f.(state := HeaderAlmostDone), None, Flush(ValueData), None, Done)
    else if ch == LF then Hop(f.(state := HeaderAlmostDone), None, Flush(ValueData), None, Again)
    else match ValueNext(f, ch)
      case Good(g) => Stay(g)
      case Bad(e) => Err(f, e)
      case Asserted => Crash(f)
  }

  // ---- Header lines and their end ----------------------------------------------

  predicate IsHeaderState(s: State) {
    || s.HeaderFieldStart? || s.HeaderField? || s.HeaderValueDiscardWs? || s.HeaderValueDiscardWsAlmostDone?
    || s.HeaderValueDiscardLws? || s.HeaderValueStart? || s.HeaderValue? || s.HeaderValueLws?
    || s.HeaderAlmostDone? || s.HeadersAlmostDone? || s.HeadersDone?
  }

  function HeaderHop(f: Fields, ch: Byte): Hop
    requires IsHeaderState(f.state)
  {
    match f.state
    case HeaderFieldStart =>
      if ch == CR then Go(f, HeadersAlmostDone)
      else if ch == LF then Redo(f, HeadersAlmostDone)
      else if Token(ch) == '\0' then Err(f, InvalidHeaderToken)
      else Hop(f.(state := HeaderField, index := 0, hstate := FirstFieldState(Token(ch))),
               Some(FieldData), NoFlush, None, Done)
    case HeaderField => FieldHop(f, ch)
    case HeaderValueDiscardWs =>
      if ch == ' ' || ch == '\t' then Stay(f)
      else if ch == CR then Go(f, HeaderValueDiscardWsAlmostDone)
      else if ch == LF then Go(f, HeaderValueDiscardLws)
      else ValueStartHop(f, ch)
    case HeaderValueStart => ValueStartHop(f, ch)
    case HeaderValue => ValueHop(f, ch)
    case HeaderAlmostDone => if ch == LF then Go(f, HeaderValueLws) else Err(f, LfExpected)
    case HeaderValueLws =>
      if ch == ' ' || ch == '\t' then
        Redo(if f.hstate.ContentLengthNum? then f.(hstate := ContentLengthWs) else f, HeaderValueStart)
      else Redo(WithHeaderFlag(f), HeaderFieldStart)
    case HeaderValueDiscardWsAlmostDone => Expect(ch == LF, f, HeaderValueDiscardLws)
    case HeaderValueDiscardLws =>
      if ch == ' ' || ch == '\t' then Go(f, HeaderValueDiscardWs)
      else if f.hstate.ContentLength? then Err(f, InvalidContentLength)
      else Hop(WithHeaderFlag(f).(state := HeaderFieldStart), Some(ValueData), Flush(ValueData), None, Again)
    case HeadersAlmostDone => HeadersAlmostDoneHop(f, ch)
    case HeadersDone => HeadersDoneHop(f, ch)
  }

  function HeadersAlmostDoneHop(f: Fields, ch: Byte): Hop {
    if ch != LF then Err(f, StrictError)
    else if f.flags.trailing then Hop(f.(state := MessageDone), None, NoFlush, Some(ChunkComplete), Again)
    else if f.flags.chunked && f.flags.contentLength then Err(f, UnexpectedContentLength)
    else
      var upgrade := if f.flags.upgrade && f.flags.connectionUpgrade
                     then f.ty == HttpRequest || f.status == 101
                     else f.verb == CONNECT;
      Hop(f.(state := HeadersDone, upgrade := upgrade), None, NoFlush, Some(HeadersComplete), Again)
  }

  function HeadersDoneHop(f: Fields, ch: Byte): Hop {
    if ch != LF then Err(f, StrictError)
    else
      var g := f.(nread := 0);
      var hasBody := f.flags.chunked || (f.contentLength > 0 && f.contentLength != NO_LENGTH);
      if f.upgrade && (f.verb == CONNECT || f.flags.skipBody || !hasBody) then
        Tell(g, NewMessage(f), MessageComplete).(flow := Quit)
      else if f.flags.skipBody then Tell(g, NewMessage(f), MessageComplete)
      else if f.flags.chunked then Go(g, ChunkSizeStart)
      else if f.contentLength == 0 then Tell(g, NewMessage(f), MessageComplete)
      else if f.contentLength != NO_LENGTH then Go(g, BodyIdentity)
      else if !MessageNeedsEof(f) then Tell(g, NewMessage(f), MessageComplete)
      else Go(g, BodyIdentityEof)
  }

  // ---- Bodies -------------------------------------------------------------------

  predicate IsBodyState(s: State) {
    || s.ChunkSizeStart? || s.ChunkSize? || s.ChunkParameters? || s.ChunkSizeAlmostDone?
    || s.ChunkData? || s.ChunkDataAlmostDone? || s.ChunkDataDone?
    || s.BodyIdentity? || s.BodyIdentityEof? || s.MessageDone?
  }

  predicate LengthLeft(f: Fields) {
    f.contentLength != 0 && f.contentLength != NO_LENGTH
  }

  function BodyHop(f: Fields, ch: Byte): Hop
    requires IsBodyState(f.state)
  {
    match f.state
    case ChunkSizeStart =>
      if f.nread != 1 || !f.flags.chunked then Crash(f)
      else if Unhex(ch) == -1 then Err(f, InvalidChunkSize)
      else Go(f.(contentLength := Unhex(ch)), ChunkSize)
    case ChunkSize =>
      if !f.flags.chunked then Crash(f)
      else if ch == CR then Go(f, ChunkSizeAlmostDone)
      else if Unhex(ch) == -1 then
        if ch == ';' || ch == ' ' then Go(f, ChunkParameters) else Err(f, InvalidChunkSize)
      else if (NO_LENGTH - 16) / 16 < f.contentLength then Err(f, InvalidContentLength)
      else Stay(f.(contentLength := (f.contentLength * 16 + Unhex(ch)) % TWO_64))
    case ChunkParameters =>
      if !f.flags.chunked then Crash(f)
      else if ch == CR then Go(f, ChunkSizeAlmostDone) else Stay(f)
    case ChunkSizeAlmostDone =>
      if !f.flags.chunked then Crash(f)
      else if ch != LF then Err(f, StrictError)
      else if f.contentLength == 0 then
        Tell(f.(nread := 0, flags := f.flags.(trailing := true)), HeaderFieldStart, ChunkHeader)
      else Tell(f.(nread := 0), ChunkData, ChunkHeader)
    case ChunkData =>
      if !f.flags.chunked || !LengthLeft(f) then Crash(f)
      else Hop(f.(contentLength := f.contentLength - 1,
                  state := if f.contentLength == 1 then ChunkDataAlmostDone else ChunkData),
               Some(BodyData), NoFlush, None, Done)
    case ChunkDataAlmostDone =>
      if !f.flags.chunked || f.contentLength != 0 then Crash(f)
      else if ch != CR then Err(f, StrictError)
      else Hop(f.(state := ChunkDataDone), None, Flush(BodyData), None, Done)
    case ChunkDataDone =>
      if !f.flags.chunked then Crash(f)
      else if ch != LF then Err(f, StrictError)
      else Tell(f.(nread := 0), ChunkSizeStart, ChunkComplete)
    case BodyIdentity =>
      if !LengthLeft(f) then Crash(f)
      else if f.contentLength == 1 then
        Hop(f.(contentLength := 0, state := MessageDone), Some(BodyData), FlushThrough(BodyData), None, Again)
      else Hop(f.(contentLength := f.contentLength - 1), Some(BodyData), NoFlush, None, Done)
    case BodyIdentityEof => Hop(f, Some(BodyData), NoFlush, None, Done)
    case MessageDone =>
      Tell(f, NewMessage(f), MessageComplete).(flow := if f.upgrade then Quit else Done)
  }

  // ---- The whole switch -----------------------------------------------------------

  // How many more times a byte can be examined again from a state.
  function Rank(s: State): nat {
    match s
    case ResStatusCode => 2 case ResStatusStart => 1 case StartReqOrRes => 1
    case HeaderValueLws => 3 case HeaderValueDiscardLws => 3 case HeaderFieldStart => 2
    case HeadersAlmostDone => 1 case HeaderValue => 1 case BodyIdentity => 1
    case _ => 0
  }

  function Switch(f: Fields, ch: Byte): Hop {
    if IsResponseState(f.state) then ResponseHop(f, ch)
    else if IsRequestState(f.state) then RequestHop(f, ch)
    else if IsUrlState(f.state) then UrlHop(f, ch)
    else if IsHeaderState(f.state) then HeaderHop(f, ch)
    else BodyHop(f, ch)
  }
}
