// The message parser as a machine that takes one byte at a time, and the
// invariant of its reachable states.
module HttpSpec {
  import opened Bytes
  import opened HttpTypes
  import opened HttpHop
  import opened UrlChars

  // ---- The byte machine --------------------------------------------------------

  // The mark that a call starting in state s sets at its first byte, which is also
  // the mark that is set inside a call when a byte ends in state s.
  function Open(s: State): Option<DataKind> {
    if s.HeaderField? then Some(FieldData)
    else if s.HeaderValue? then Some(ValueData)
    else if s.ResStatus? then Some(StatusData)
    else if IsUrlState(s) then Some(UrlData)
    else None
  }

  datatype ByteResult =
    | Next(f: Fields, log: Log)
    | Stop(f: Fields, log: Log)
    | Error(err: Errno)
    | Crashed

  function OpenAfter(h: Hop, open: Option<DataKind>): Option<DataKind> {
    if !h.flush.NoFlush? then None else if h.mark.Some? then h.mark else open
  }

  function LogAfter(h: Hop, log: Log, ch: Byte): Log {
    var l1 := if h.mark.Some? then Append(log, h.mark.value, []) else log;
    var l2 := if h.flush.FlushThrough? then Append(l1, h.flush.kind, [ch]) else l1;
    if h.note.Some? then Snoc(l2, Notify(h.note.value)) else l2
  }

  // Examine ch until it is consumed.
  function Chain(f: Fields, log: Log, ch: Byte): ByteResult
    decreases Rank(f.state)
  {
    var h := Switch(f, ch);
    var log' := LogAfter(h, log, ch);
    var open := OpenAfter(h, Open(f.state));
    match h.flow
    case Done => Next(h.f, if open.Some? then Append(log', open.value, [ch]) else log')
    case Again => if Rank(h.f.state) < Rank(f.state) then Chain(h.f, log', ch) else Crashed
    case Quit => Stop(h.f, log')
    case Fail(e) => Error(e)
    case Abort => Crashed
  }

  // One byte: bytes of the start line, headers and chunk sizes are counted first.
  function Step(max: nat, f: Fields, log: Log, ch: Byte): ByteResult {
    if !ParsingHeader(f.state) then Chain(f, log, ch)
    else if f.nread + 1 > max then Error(HeaderOverflow)
    else Chain(f.(nread := f.nread + 1), log, ch)
  }

  // left counts the bytes not consumed, the failing byte among them.
  datatype RunResult =
    | Consumed(f: Fields, log: Log)
    | Stopped(f: Fields, log: Log, left: nat)
    | Failed(err: Errno, left: nat)
    | RunCrashed

  function Run(max: nat, f: Fields, log: Log, s: ByteString): RunResult
    decreases s
  {
    if s == [] then Consumed(f, log)
    else match Step(max, f, log, s[0])
      case Next(f', log') => Run(max, f', log', s[1..])
      case Stop(f', log') => Stopped(f', log', |s| - 1)
      case Error(e) => Failed(e, |s|)
      case Crashed => RunCrashed
  }

  // ---- The invariant -------------------------------------------------------------

  // The header states in which s_header_field can run, and their matcher positions.
  predicate FieldStateOk(h: HeaderState, i: nat) {
    match h
    case General => i <= 17
    case C => i == 0
    case CO => i == 1
    case CON => i == 2
    case MatchingConnection => 3 <= i < 9
    case MatchingProxyConnection => i < 15
    case MatchingContentLength => 3 <= i < 13
    case MatchingTransferEncoding => i < 16
    case MatchingUpgrade => i < 6
    case Connection => i <= 17
    case ContentLength => i <= 17
    case TransferEncoding => i <= 17
    case Upgrade => i <= 17
    case _ => false
  }

  // The header states in which s_header_value can run.
  predicate ValueStateOk(h: HeaderState, i: nat) {
    match h
    case Connection => false
    case TransferEncoding => false
    case MatchingTransferEncodingChunked => i < 6
    case MatchingConnectionTokenStart => i == 0
    case MatchingConnectionKeepAlive => i < 9
    case MatchingConnectionClose => i < 4
    case MatchingConnectionUpgrade => i < 6
    case _ => i <= 17
  }

  // What the source's assertions ask of the fields in each state.
  predicate StateOk(f: Fields) {
    match f.state
    case ReqMethod => 1 <= f.index <= |MethodName(f.verb)|
    case HeaderField => FieldStateOk(f.hstate, f.index)
    case HeaderValue => ValueStateOk(f.hstate, f.index)
    case ChunkSizeStart => f.flags.chunked
    case ChunkSize => f.flags.chunked && f.contentLength < NO_LENGTH
    case ChunkParameters => f.flags.chunked && f.contentLength < NO_LENGTH
    case ChunkSizeAlmostDone => f.flags.chunked && f.contentLength < NO_LENGTH
    case ChunkData => f.flags.chunked && LengthLeft(f)
    case ChunkDataAlmostDone => f.flags.chunked && f.contentLength == 0
    case ChunkDataDone => f.flags.chunked
    case BodyIdentity => LengthLeft(f)
    case _ => true
  }

  // With the bounds that keep the 7-bit index, the 16-bit status code and the
  // 64-bit length from wrapping.
  predicate Sane(f: Fields) {
    f.index <= 17 && f.status <= 999 && f.contentLength < TWO_64 && StateOk(f)
  }

  // Between two bytes, and while a counted byte is being examined.
  predicate Inv(max: nat, f: Fields) {
    Sane(f) && f.nread <= max && (f.state.ChunkSizeStart? ==> f.nread == 0)
  }

  predicate MidInv(max: nat, f: Fields) {
    Sane(f) && f.nread <= max && (f.state.ChunkSizeStart? ==> f.nread == 1)
  }

  // A pass through the switch trips no assertion, keeps the invariant, keeps the
  // marks in step with the state, and goes down in rank when it re-executes.
  predicate HopKeeps(max: nat, f: Fields, h: Hop) {
    && !h.flow.Abort?
    && (h.flow.Fail? ==> h.flow.err != OK && h.flow.err != HeaderOverflow)
    && (h.flow.Again? ==>
         && MidInv(max, h.f) && Rank(h.f.state) < Rank(f.state)
         && !h.f.state.ChunkSizeStart? && !h.f.state.HeaderValue?)
    && (h.flow.Done? || h.flow.Quit? ==> Inv(max, h.f))
  }

  predicate HopMarks(f: Fields, h: Hop) {
    var open := OpenAfter(h, Open(f.state));
    && (h.mark.Some? ==> Open(f.state).None?)
    && (!h.flush.NoFlush? && f.state != ChunkDataAlmostDone ==>
         (if h.mark.Some? then h.mark else Open(f.state)) == Some(h.flush.kind))
    && (f.state == ChunkDataAlmostDone && (h.flow.Done? || h.flow.Again? || h.flow.Quit?) ==>
         h.flow.Done? && h.mark.None? && h.flush == Flush(BodyData))
    && (h.note.Some? ==> h.mark.None? && h.flush.NoFlush? && Open(f.state).None?)
    && (h.flow.Again? ==> open == Open(h.f.state))
    && (h.flow.Quit? ==> open.None? && Open(h.f.state).None?)
    && (h.flow.Done? ==> open == Open(h.f.state) || (h.mark == Some(BodyData) && Open(h.f.state).None?))
  }

  // The states that ask nothing of the other fields.
  predicate IsPlain(s: State) {
    && !s.ReqMethod? && !s.HeaderField? && !s.HeaderValue? && !s.ChunkSizeStart? && !s.ChunkSize?
    && !s.ChunkParameters? && !s.ChunkSizeAlmostDone? && !s.ChunkData? && !s.ChunkDataAlmostDone?
    && !s.ChunkDataDone? && !s.BodyIdentity?
  }

  lemma PlainOk(f: Fields)
    ensures IsPlain(f.state) ==> StateOk(f)
  {
    hide MethodName;
  }

  lemma MethodNameLength(m: Method)
    ensures 3 <= |MethodName(m)| <= 11
  {
  }

  lemma ResponseKeeps(max: nat, f: Fields, ch: Byte)
    requires MidInv(max, f) && IsResponseState(f.state)
    ensures HopKeeps(max, f, ResponseHop(f, ch))
  {
    hide MethodName;
    MethodNameLength(HEAD);
  }

  // A pass that touches no mark, between states that collect nothing.
  lemma QuietMarks(f: Fields, h: Hop)
    requires h.mark.None? && h.flush.NoFlush? && f.state != ChunkDataAlmostDone
    requires Open(f.state).None? && Open(h.f.state).None?
    ensures HopMarks(f, h)
  {
    hide Open;
  }

  predicate IsStatusState(s: State) {
    s.ResFirstStatusCode? || s.ResStatusCode? || s.ResStatusStart? || s.ResStatus? || s.ResLineAlmostDone?
  }

  lemma StatusMarks(f: Fields, ch: Byte)
    requires IsStatusState(f.state)
    ensures HopMarks(f, ResponseHop(f, ch))
  {
    hide IsNum;
  }

  lemma VersionMarks(f: Fields, ch: Byte)
    requires IsResponseState(f.state) && !IsStatusState(f.state)
    ensures HopMarks(f, ResponseHop(f, ch))
  {
    hide IsNum, HopMarks;
    QuietMarks(f, ResponseHop(f, ch));
  }

  lemma ResponseMarks(f: Fields, ch: Byte)
    requires IsResponseState(f.state)
    ensures HopMarks(f, ResponseHop(f, ch))
  {
    hide HopMarks, ResponseHop;
    if IsStatusState(f.state) {
      StatusMarks(f, ch);
    } else {
      VersionMarks(f, ch);
    }
  }

  lemma MethodKeeps(max: nat, f: Fields, ch: Byte)
    requires MidInv(max, f) && f.state == ReqMethod
    ensures HopKeeps(max, f, MethodHop(f, ch))
  {
    hide MethodName, NextCandidate;
    MethodNameLength(f.verb);
    NextCandidateLength(f.verb, f.index, ch);
  }

  predicate IsEarly(m: Method) { m.POST? || m.PUT? || m.CONNECT? || m.MKCOL? }

  lemma EarlyCandidateLength(m: Method, i: nat, ch: Byte)
    requires IsEarly(m)
    ensures NextCandidate(m, i, ch).Some? ==> i < |MethodName(NextCandidate(m, i, ch).value)|
  {
  }

  lemma LateCandidateLength(m: Method, i: nat, ch: Byte)
    requires !IsEarly(m)
    ensures NextCandidate(m, i, ch).Some? ==> i < |MethodName(NextCandidate(m, i, ch).value)|
  {
  }

  lemma NextCandidateLength(m: Method, i: nat, ch: Byte)
    ensures NextCandidate(m, i, ch).Some? ==> i < |MethodName(NextCandidate(m, i, ch).value)|
  {
    hide NextCandidate, MethodName;
    if IsEarly(m) {
      EarlyCandidateLength(m, i, ch);
    } else {
      LateCandidateLength(m, i, ch);
    }
  }

  lemma StartKeeps(max: nat, f: Fields, ch: Byte)
    requires MidInv(max, f) && f.state.StartReq?
    ensures HopKeeps(max, f, RequestHop(f, ch))
  {
    hide MethodName, FirstCandidate, IsAlpha;
    if FirstCandidate(ch).Some? {
      MethodNameLength(FirstCandidate(ch).value);
    }
  }

  // The spaces before the URL and the version behind it.
  lemma RequestLineKeeps(max: nat, f: Fields, ch: Byte)
    requires MidInv(max, f) && IsRequestState(f.state) && !f.state.StartReq? && !f.state.ReqMethod?
    ensures HopKeeps(max, f, RequestHop(f, ch))
  {
    hide RequestHop, HopKeeps, MidInv;
    if f.state.ReqSpacesBeforeUrl? {
      UrlBeginKeeps(max, f, ch);
    } else {
      ProtocolKeeps(max, f, ch);
    }
  }

  lemma UrlBeginKeeps(max: nat, f: Fields, ch: Byte)
    requires MidInv(max, f) && f.state.ReqSpacesBeforeUrl?
    ensures HopKeeps(max, f, RequestHop(f, ch))
  {
    hide StateOk, ParseUrlChar, MethodHop, FirstCandidate;
    PlainOk(RequestHop(f, ch).f);
    UrlStepTarget(if f.verb == CONNECT then ReqServerStart else f.state, ch);
  }

  lemma ProtocolKeeps(max: nat, f: Fields, ch: Byte)
    requires MidInv(max, f) && IsRequestState(f.state) && !f.state.StartReq? && !f.state.ReqMethod?
    requires !f.state.ReqSpacesBeforeUrl?
    ensures HopKeeps(max, f, RequestHop(f, ch))
  {
    hide StateOk, UrlStep, IsNum, MethodHop, FirstCandidate;
    PlainOk(RequestHop(f, ch).f);
  }

  lemma RequestKeeps(max: nat, f: Fields, ch: Byte)
    requires MidInv(max, f) && IsRequestState(f.state)
    ensures HopKeeps(max, f, RequestHop(f, ch))
  {
    hide MethodHop, MethodName, HopKeeps, MidInv;
    if f.state.ReqMethod? {
      MethodKeeps(max, f, ch);
    } else if f.state.StartReq? {
      StartKeeps(max, f, ch);
    } else {
      RequestLineKeeps(max, f, ch);
    }
  }

  lemma RequestLineMarks(f: Fields, ch: Byte)
    requires IsRequestState(f.state) && !f.state.ReqMethod? && !f.state.ReqSpacesBeforeUrl?
    ensures HopMarks(f, RequestHop(f, ch))
  {
    hide MethodHop, FirstCandidate, IsAlpha, IsNum, HopMarks;
    QuietMarks(f, RequestHop(f, ch));
  }

  lemma UrlStartMarks(f: Fields, ch: Byte)
    requires f.state.ReqSpacesBeforeUrl?
    ensures HopMarks(f, RequestHop(f, ch))
  {
    hide MethodHop, FirstCandidate, ParseUrlChar;
    UrlStepTarget(if f.verb == CONNECT then ReqServerStart else f.state, ch);
  }

  lemma RequestMarks(f: Fields, ch: Byte)
    requires IsRequestState(f.state)
    ensures HopMarks(f, RequestHop(f, ch))
  {
    hide MethodHop, HopMarks;
    if f.state.ReqMethod? {
      MethodMarks(f, ch);
    } else if f.state.ReqSpacesBeforeUrl? {
      UrlStartMarks(f, ch);
    } else {
      RequestLineMarks(f, ch);
    }
  }

  lemma MethodMarks(f: Fields, ch: Byte)
    requires f.state == ReqMethod
    ensures HopMarks(f, MethodHop(f, ch))
  {
    hide MethodName, NextCandidate;
  }

  lemma UrlStepTarget(s: State, ch: Byte)
    ensures ParseUrlChar(s, ch).Dead? || IsUrlState(ParseUrlChar(s, ch))
  {
  }

  lemma UrlKeeps(max: nat, f: Fields, ch: Byte)
    requires MidInv(max, f) && IsUrlState(f.state)
    ensures HopKeeps(max, f, UrlHop(f, ch))
  {
    hide ParseUrlChar;
    UrlStepTarget(f.state, ch);
  }

  lemma UrlMarks(f: Fields, ch: Byte)
    requires IsUrlState(f.state)
    ensures HopMarks(f, UrlHop(f, ch))
  {
    hide ParseUrlChar;
    UrlStepTarget(f.state, ch);
  }

  lemma WordLengths()
    ensures |CONNECTION| == 10 && |PROXY_CONNECTION| == 16 && |CONTENT_LENGTH| == 14
    ensures |TRANSFER_ENCODING| == 17 && |UPGRADE| == 7 && |CHUNKED| == 7 && |KEEP_ALIVE| == 10 && |CLOSE| == 5
  {
  }

  lemma FieldKeeps(max: nat, f: Fields, ch: Byte)
    requires MidInv(max, f) && f.state.HeaderField?
    ensures HopKeeps(max, f, FieldHop(f, ch))
  {
    hide Token, Matched, CONNECTION, PROXY_CONNECTION, CONTENT_LENGTH, TRANSFER_ENCODING, UPGRADE;
    WordLengths();
  }

  lemma AddDigitKeeps(f: Fields, ch: Byte)
    ensures match AddDigit(f, ch)
      case Good(g) => g.contentLength < TWO_64 && g == f.(contentLength := g.contentLength, hstate := ContentLengthNum)
      case Bad(e) => e == InvalidContentLength
      case Asserted => false
  {
  }

  lemma ValueMatchKeeps(h: HeaderState, i: nat, ch: Byte)
    requires ValueStateOk(h, i) && i <= 17
    ensures var (h', i') := ValueMatch(h, i, ch); ValueStateOk(h', i') && i' <= 17
  {
    hide Lower, Token, Matched, CHUNKED, KEEP_ALIVE, CLOSE, UPGRADE;
    WordLengths();
  }

  lemma ValueNextKeeps(f: Fields, ch: Byte)
    requires ValueStateOk(f.hstate, f.index) && f.index <= 17 && f.contentLength < TWO_64
    ensures match ValueNext(f, ch)
      case Good(g) => && ValueStateOk(g.hstate, g.index) && g.index <= 17 && g.contentLength < TWO_64
                      && g.state == f.state && g.nread == f.nread && g.status == f.status
      case Bad(e) => e == InvalidHeaderToken || e == InvalidContentLength
      case Asserted => false
  {
    hide IsHeaderChar, ValueMatch, AddDigit;
    ValueMatchKeeps(f.hstate, f.index, ch);
    AddDigitKeeps(f, ch);
  }

  lemma ValueKeeps(max: nat, f: Fields, ch: Byte)
    requires MidInv(max, f) && f.state.HeaderValue?
    ensures HopKeeps(max, f, ValueHop(f, ch))
  {
    hide ValueNext, ValueStateOk;
    ValueNextKeeps(f, ch);
  }

  lemma ValueStartKeeps(max: nat, f: Fields, ch: Byte)
    requires MidInv(max, f)
    ensures HopKeeps(max, f, ValueStartHop(f, ch))
  {
    hide MethodName, Lower;
  }

  lemma HeadersAlmostDoneKeeps(max: nat, f: Fields, ch: Byte)
    requires MidInv(max, f) && f.state.HeadersAlmostDone?
    ensures HopKeeps(max, f, HeaderHop(f, ch))
  {
    hide MethodName, NewMessage, MessageNeedsEof, HeadersDoneHop, FieldStateOk, ValueStateOk;
  }

  lemma HeadersDoneKeeps(max: nat, f: Fields, ch: Byte)
    requires MidInv(max, f) && f.state.HeadersDone?
    ensures HopKeeps(max, f, HeaderHop(f, ch))
  {
    hide HeadersDoneHop, HopKeeps, MidInv;
    BodyChoiceKeeps(max, f, ch);
  }

  lemma BodyChoiceKeeps(max: nat, f: Fields, ch: Byte)
    requires MidInv(max, f) && f.state.HeadersDone?
    ensures HopKeeps(max, f, HeadersDoneHop(f, ch))
  {
    hide MethodName, NewMessage, MessageNeedsEof, FieldStateOk, ValueStateOk, StateOk;
    NewMessageIs(f);
    var g := HeadersDoneHop(f, ch).f;
    PlainOk(g);
    FramedOk(g);
  }

  lemma FramedOk(f: Fields)
    ensures f.state.ChunkSizeStart? && f.flags.chunked ==> StateOk(f)
    ensures f.state.BodyIdentity? && LengthLeft(f) ==> StateOk(f)
  {
    hide MethodName, FieldStateOk, ValueStateOk;
  }

  lemma NewMessageIs(f: Fields)
    ensures NewMessage(f).Dead? || NewMessage(f).StartReq? || NewMessage(f).StartRes?
  {
    hide ShouldKeepAlive;
  }

  // Between the name and the value of a header, and at the end of its line.
  lemma HeaderLineKeeps(max: nat, f: Fields, ch: Byte)
    requires MidInv(max, f) && IsHeaderState(f.state) && !f.state.HeaderField? && !f.state.HeaderValue?
    requires !f.state.HeaderValueStart? && !f.state.HeaderValueDiscardWs?
    requires !f.state.HeadersAlmostDone? && !f.state.HeadersDone?
    ensures HopKeeps(max, f, HeaderHop(f, ch))
  {
    hide HeaderHop, HopKeeps, MidInv;
    if f.state.HeaderFieldStart? {
      FieldStartKeeps(max, f, ch);
    } else {
      LineEndKeeps(max, f, ch);
    }
  }

  lemma FieldStartKeeps(max: nat, f: Fields, ch: Byte)
    requires MidInv(max, f) && f.state.HeaderFieldStart?
    ensures HopKeeps(max, f, HeaderHop(f, ch))
  {
    hide Token, FieldHop, ValueHop, ValueStartHop, HeadersAlmostDoneHop, HeadersDoneHop, StateOk, FirstFieldState;
    var g := HeaderHop(f, ch).f;
    PlainOk(g);
    FieldStartOk(g, Token(ch));
  }

  lemma LineEndKeeps(max: nat, f: Fields, ch: Byte)
    requires MidInv(max, f) && IsHeaderState(f.state) && !f.state.HeaderField? && !f.state.HeaderValue?
    requires !f.state.HeaderValueStart? && !f.state.HeaderValueDiscardWs? && !f.state.HeaderFieldStart?
    requires !f.state.HeadersAlmostDone? && !f.state.HeadersDone?
    ensures HopKeeps(max, f, HeaderHop(f, ch))
  {
    hide Token, FieldHop, ValueHop, ValueStartHop, HeadersAlmostDoneHop, HeadersDoneHop, StateOk, WithHeaderFlag;
    HeaderFlagKeeps(f);
    PlainOk(HeaderHop(f, ch).f);
  }

  lemma HeaderFlagKeeps(f: Fields)
    ensures var g := WithHeaderFlag(f);
      g.state == f.state && g.index == f.index && g.status == f.status && g.contentLength == f.contentLength
      && g.nread == f.nread
  {
  }

  lemma FieldStartOk(f: Fields, c: Byte)
    ensures f.state.HeaderField? && f.index == 0 && f.hstate == FirstFieldState(c) ==> StateOk(f)
  {
    hide MethodName, ValueStateOk;
  }

  lemma DiscardKeeps(max: nat, f: Fields, ch: Byte)
    requires MidInv(max, f) && f.state.HeaderValueDiscardWs?
    ensures HopKeeps(max, f, HeaderHop(f, ch))
  {
    hide Token, FieldHop, ValueHop, ValueStartHop, HeadersAlmostDoneHop, HeadersDoneHop, StateOk;
    PlainOk(HeaderHop(f, ch).f);
    ValueStartKeeps(max, f, ch);
  }

  lemma HeaderKeeps(max: nat, f: Fields, ch: Byte)
    requires MidInv(max, f) && IsHeaderState(f.state)
    ensures HopKeeps(max, f, HeaderHop(f, ch))
  {
    hide Token, FieldHop, ValueHop, ValueStartHop, HeadersAlmostDoneHop, HeadersDoneHop, HopKeeps, MidInv;
    if f.state.HeaderField? {
      FieldKeeps(max, f, ch);
    } else if f.state.HeaderValue? {
      ValueKeeps(max, f, ch);
    } else if f.state.HeaderValueStart? {
      ValueStartKeeps(max, f, ch);
    } else if f.state.HeaderValueDiscardWs? {
      DiscardKeeps(max, f, ch);
    } else if f.state.HeadersAlmostDone? {
      HeadersAlmostDoneKeeps(max, f, ch);
    } else if f.state.HeadersDone? {
      HeadersDoneKeeps(max, f, ch);
    } else {
      HeaderLineKeeps(max, f, ch);
    }
  }

  predicate IsValueState(s: State) {
    s.HeaderValue? || s.HeaderValueStart? || s.HeaderValueDiscardWs? || s.HeaderValueDiscardLws? || s.HeaderValueLws?
  }

  lemma ValueMarks(f: Fields, ch: Byte)
    requires IsValueState(f.state)
    ensures HopMarks(f, HeaderHop(f, ch))
  {
    hide Lower, ValueNext, ValueStartState, IsNum, WithHeaderFlag;
    ValueNextState(f, ch);
    HeaderFlagState(f);
  }

  lemma HeaderFlagState(f: Fields)
    ensures WithHeaderFlag(f).state == f.state
  {
  }

  lemma NameMarks(f: Fields, ch: Byte)
    requires IsHeaderState(f.state) && !IsValueState(f.state)
    ensures HopMarks(f, HeaderHop(f, ch))
  {
    hide Token, FieldHop, ValueStartHop, ValueHop, FirstFieldState, HopMarks, HeadersDoneHop, WithHeaderFlag, Lower;
    if f.state.HeaderField? || f.state.HeaderFieldStart? {
      FieldMarks(f, ch);
    } else if f.state.HeadersDone? {
      HeadersDoneMarks(f, ch);
    } else {
      QuietMarks(f, HeaderHop(f, ch));
    }
  }

  predicate IsBodyStart(s: State) {
    || s.Dead? || s.StartReq? || s.StartRes? || s.ChunkSizeStart? || s.BodyIdentity? || s.BodyIdentityEof?
    || s.HeadersDone?
  }

  lemma HeadersDoneTarget(f: Fields, ch: Byte)
    requires f.state.HeadersDone?
    ensures var h := HeadersDoneHop(f, ch); h.mark.None? && h.flush.NoFlush? && IsBodyStart(h.f.state)
  {
    hide NewMessage, MessageNeedsEof;
    NewMessageIs(f);
  }

  lemma BodyStartOpen(s: State)
    requires IsBodyStart(s)
    ensures Open(s).None?
  {
  }

  lemma HeadersDoneMarks(f: Fields, ch: Byte)
    requires f.state.HeadersDone?
    ensures HopMarks(f, HeaderHop(f, ch))
  {
    hide HopMarks, HeadersDoneHop, Open;
    HeadersDoneTarget(f, ch);
    BodyStartOpen(f.state);
    BodyStartOpen(HeadersDoneHop(f, ch).f.state);
    QuietMarks(f, HeadersDoneHop(f, ch));
  }

  lemma FieldMarks(f: Fields, ch: Byte)
    requires f.state.HeaderField? || f.state.HeaderFieldStart?
    ensures HopMarks(f, HeaderHop(f, ch))
  {
    hide Token, FieldNext, FirstFieldState, ValueStartHop, ValueHop, HeadersDoneHop, HeadersAlmostDoneHop;
  }

  lemma HeaderMarks(f: Fields, ch: Byte)
    requires IsHeaderState(f.state)
    ensures HopMarks(f, HeaderHop(f, ch))
  {
    hide HeaderHop, HopMarks;
    if IsValueState(f.state) {
      ValueMarks(f, ch);
    } else {
      NameMarks(f, ch);
    }
  }

  lemma ValueNextState(f: Fields, ch: Byte)
    ensures ValueNext(f, ch).Good? ==> ValueNext(f, ch).f.state == f.state
  {
    hide IsHeaderChar, ValueMatch;
  }

  predicate IsSizeState(s: State) {
    s.ChunkSizeStart? || s.ChunkSize? || s.ChunkParameters? || s.ChunkSizeAlmostDone?
  }

  lemma SizeKeeps(max: nat, f: Fields, ch: Byte)
    requires MidInv(max, f) && IsSizeState(f.state)
    ensures HopKeeps(max, f, BodyHop(f, ch))
  {
    hide MethodName, Unhex, FieldStateOk, ValueStateOk;
  }

  lemma DataKeeps(max: nat, f: Fields, ch: Byte)
    requires MidInv(max, f) && IsBodyState(f.state) && !IsSizeState(f.state)
    ensures HopKeeps(max, f, BodyHop(f, ch))
  {
    hide MethodName, NewMessage, FieldStateOk, ValueStateOk;
    NewMessageIs(f);
  }

  lemma BodyKeeps(max: nat, f: Fields, ch: Byte)
    requires MidInv(max, f) && IsBodyState(f.state)
    ensures HopKeeps(max, f, BodyHop(f, ch))
  {
    hide BodyHop, HopKeeps, MidInv;
    if IsSizeState(f.state) {
      SizeKeeps(max, f, ch);
    } else {
      DataKeeps(max, f, ch);
    }
  }

  lemma SizeMarks(f: Fields, ch: Byte)
    requires IsSizeState(f.state)
    ensures HopMarks(f, BodyHop(f, ch))
  {
    hide Unhex;
  }

  lemma DataMarks(f: Fields, ch: Byte)
    requires IsBodyState(f.state) && !IsSizeState(f.state)
    ensures HopMarks(f, BodyHop(f, ch))
  {
    hide NewMessage;
    NewMessageIs(f);
  }

  lemma BodyMarks(f: Fields, ch: Byte)
    requires IsBodyState(f.state)
    ensures HopMarks(f, BodyHop(f, ch))
  {
    hide BodyHop, HopMarks;
    if IsSizeState(f.state) {
      SizeMarks(f, ch);
    } else {
      DataMarks(f, ch);
    }
  }

  lemma SwitchKeeps(max: nat, f: Fields, ch: Byte)
    requires MidInv(max, f)
    ensures HopKeeps(max, f, Switch(f, ch)) && HopMarks(f, Switch(f, ch))
  {
    hide HopKeeps, HopMarks, MidInv, ResponseHop, RequestHop, UrlHop, HeaderHop, BodyHop;
    if IsResponseState(f.state) {
      ResponseKeeps(max, f, ch);
      ResponseMarks(f, ch);
    } else if IsRequestState(f.state) {
      RequestKeeps(max, f, ch);
      RequestMarks(f, ch);
    } else if IsUrlState(f.state) {
      UrlKeeps(max, f, ch);
      UrlMarks(f, ch);
    } else if IsHeaderState(f.state) {
      HeaderKeeps(max, f, ch);
      HeaderMarks(f, ch);
    } else {
      BodyKeeps(max, f, ch);
      BodyMarks(f, ch);
    }
  }

  // ---- What every run keeps ---------------------------------------------------------

  // A kind that is being collected is the kind of the latest event.
  predicate Linked(s: State, log: Log) {
    Open(s).Some? ==> EndsIn(log, Open(s).value)
  }

  ghost predicate Kept(max: nat, r: ByteResult) {
    match r
    case Next(f, log) => Inv(max, f) && Linked(f.state, log)
    case Stop(f, log) => Inv(max, f) && Linked(f.state, log)
    case Error(e) => e != OK
    case Crashed => false
  }

  lemma {:induction false} ChainKeeps(max: nat, f: Fields, log: Log, ch: Byte)
    requires MidInv(max, f) && Linked(f.state, log)
    ensures Kept(max, Chain(f, log, ch))
    ensures Chain(f, log, ch).Error? ==> Chain(f, log, ch).err != HeaderOverflow
    decreases Rank(f.state)
  {
    hide Switch, Rank, Inv, MidInv;
    SwitchKeeps(max, f, ch);
    var h := Switch(f, ch);
    if h.flow.Again? {
      ChainKeeps(max, h.f, LogAfter(h, log, ch), ch);
    }
  }

  lemma StepKeeps(max: nat, f: Fields, log: Log, ch: Byte)
    requires Inv(max, f) && Linked(f.state, log)
    ensures Kept(max, Step(max, f, log, ch))
  {
    hide Chain, StateOk;
    if !ParsingHeader(f.state) {
      ChainKeeps(max, f, log, ch);
    } else if f.nread + 1 <= max {
      StateOkIgnoresCount(f, f.nread + 1);
      ChainKeeps(max, f.(nread := f.nread + 1), log, ch);
    }
  }

  lemma StateOkIgnoresCount(f: Fields, n: nat)
    ensures StateOk(f.(nread := n)) == StateOk(f)
  {
    hide MethodName, FieldStateOk, ValueStateOk;
  }

  // From a sane state, no input makes an assertion fail: a run consumes its input,
  // stops for an upgrade or reports an error, and leaves a sane state behind.
  lemma {:induction false} RunKeeps(max: nat, f: Fields, log: Log, s: ByteString)
    requires Inv(max, f) && Linked(f.state, log)
    ensures match Run(max, f, log, s)
      case Consumed(f', log') => Inv(max, f') && Linked(f'.state, log')
      case Stopped(f', log', left) => Inv(max, f') && Linked(f'.state, log') && left < |s|
      case Failed(e, left) => e != OK && 0 < left <= |s|
      case RunCrashed => false
    decreases s
  {
    hide Step, Inv, Linked;
    if s != [] {
      StepKeeps(max, f, log, s[0]);
      var r := Step(max, f, log, s[0]);
      if r.Next? {
        RunKeeps(max, r.f, r.log, s[1..]);
      }
    }
  }

  lemma InitialKeeps(max: nat, ty: ParserType, lenient: bool)
    ensures Inv(max, InitialFields(ty, lenient)) && Linked(InitialFields(ty, lenient).state, Empty)
  {
  }
}
