// Whole messages, and several of them on one connection.
module HttpPipeline {
  import opened Bytes
  import opened HttpTypes
  import opened HttpHop
  import opened HttpSpec
  import opened HttpFraming
  import opened HttpLines
  import opened HttpMessage
  import opened HttpStart
  import opened HttpSplit

  datatype FirstLine = Asks(request: RequestLine) | Answers(status: StatusLine)

  datatype Message = Message(first: FirstLine, headers: seq<HeaderLine>, body: Body)

  function Major(l: FirstLine): Byte { match l case Asks(r) => r.major case Answers(s) => s.major }
  function Minor(l: FirstLine): Byte { match l case Asks(r) => r.minor case Answers(s) => s.minor }

  predicate FirstOk(l: FirstLine) {
    match l case Asks(r) => RequestLineOk(r) case Answers(s) => StatusLineOk(s)
  }

  function FirstText(l: FirstLine): ByteString {
    match l case Asks(r) => RequestLineText(r) case Answers(s) => StatusLineText(s)
  }

  ghost function FirstLog(log: Log, l: FirstLine): Log {
    match l
    case Asks(r) => Append(Snoc(log, Notify(MessageBegin)), UrlData, r.target)
    case Answers(s) => Append(Snoc(log, Notify(MessageBegin)), StatusData, s.reason)
  }

  // A parser that waits for such a message.
  predicate AtStart(f: Fields, l: FirstLine) {
    match l
    case Asks(_) => f.ty == HttpRequest && f.state.StartReq?
    case Answers(_) => f.ty == HttpResponse && f.state.StartRes? && f.verb != CONNECT
  }

  function MethodOf(f: Fields, l: FirstLine): Method { match l case Asks(r) => r.verb case Answers(_) => f.verb }

  predicate CodeIs(l: FirstLine, g: Fields) {
    l.Answers? ==> (forall d <- l.status.code :: IsNum(d)) && g.status == DecNumeral(0, l.status.code)
  }

  lemma FirstRun(max: nat, f: Fields, log: Log, l: FirstLine) returns (g: Fields)
    requires AtStart(f, l) && FirstOk(l) && f.nread + |FirstText(l)| <= max
    ensures Leads(max, f, log, FirstText(l), g, FirstLog(log, l))
    ensures g == f.(flags := NO_FLAGS, contentLength := NO_LENGTH, verb := MethodOf(f, l), index := g.index,
                    status := g.status, nread := f.nread + |FirstText(l)|, state := HeaderFieldStart,
                    major := Major(l) as int - '0' as int, minor := Minor(l) as int - '0' as int)
    ensures CodeIs(l, g)
  {
    hide Leads, Append, RequestLineText, StatusLineText, TargetOk, DecNumeral;
    var log1: Log;
    match l
    case Asks(r) => g, log1 := RequestLineRun(max, f, log, r);
    case Answers(s) => g, log1 := StatusLineRun(max, f, log, s);
  }

  // ---- One message -------------------------------------------------------------------------------

  // The status allows no body.
  predicate Bodiless(l: FirstLine) {
    match l
    case Asks(_) => true
    case Answers(s) =>
      && (forall d <- s.code :: IsNum(d))
      && var n := DecNumeral(0, s.code); 100 <= n < 200 || n == 204 || n == 304
  }

  // The headers announce the body: nothing, the bytes that Content-Length counts, or chunks.
  predicate Announces(max: nat, m: Message) {
    match m.body
    case NoBody =>
      Codings(m.headers) == 0
      && if Lengths(m.headers) == 0 then Bodiless(m.first)
         else Lengths(m.headers) == 1 && LengthGiven(0, m.headers) == 0
    case Sized(data) =>
      Codings(m.headers) == 0 && Lengths(m.headers) == 1 && LengthGiven(0, m.headers) == |data| > 0
    case Chunked(cs, zeros, extension, trailer) =>
      && Codings(m.headers) > 0 && Lengths(m.headers) == 0
      && (forall c <- cs :: ChunkOk(max, c)) && SizeOk(max, zeros, extension, 0) && TrailerOk(max, trailer)
  }

  // The message asks for another protocol: a request by both headers or by its method, a
  // response by both headers and the status 101.
  predicate Upgrades(m: Message) {
    match m.first
    case Asks(r) => r.verb == CONNECT || (BlockOffers(m.headers) && BlockSays(m.headers, "upgrade"))
    case Answers(s) =>
      && (forall d <- s.code :: IsNum(d)) && DecNumeral(0, s.code) == 101
      && BlockOffers(m.headers) && BlockSays(m.headers, "upgrade")
  }

  predicate MessageOk(max: nat, m: Message) {
    FirstOk(m.first) && BlockOk(m.headers) && Announces(max, m) && !Upgrades(m)
  }

  function Text(m: Message): ByteString { FirstText(m.first) + MessageText(m.headers, m.body) }

  // The bytes of it that count as header bytes before its body.
  function HeadLength(m: Message): nat { |FirstText(m.first)| + |BlockText(m.headers)| + 2 }

  ghost function Told(log: Log, m: Message): Log { MessageLog(FirstLog(log, m.first), m.headers, m.body) }

  // A Connection line of the header block or of the trailer says the word x.
  predicate MessageSays(m: Message, x: string) { BlockSays(m.headers, x) || BlockSays(Trailing(m.body), x) }

  // From version 1.1 on the connection stays open unless the message says close; before, only
  // if it says keep-alive. A version such as 2.0 counts as an earlier one.
  predicate KeepsOpen(m: Message) {
    if Major(m.first) != '0' && Minor(m.first) != '0' then !MessageSays(m, "close") else MessageSays(m, "keep-alive")
  }

  lemma FitsBody(max: nat, f: Fields, m: Message)
    requires MessageOk(max, m) && f.flags == NO_FLAGS && f.contentLength == NO_LENGTH && CodeIs(m.first, f)
    requires m.first.Asks? <==> f.ty == HttpRequest
    requires f.verb != CONNECT
    ensures var b := BlockFramed(f, m.headers); !Upgrading(b) && BodyOk(max, b, m.body)
    ensures Lengths(m.headers) <= 1 && !(Lengths(m.headers) > 0 && Codings(m.headers) > 0)
  {
    hide BlockFramed, Lengths, Codings, LengthGiven, BlockSays, BlockOffers, ChunkOk, SizeOk, TrailerOk, DecNumeral,
      FirstOk, BlockOk;
    BlockMeans(f, m.headers);
    GivenOnce(NO_LENGTH, m.headers);
  }

  // A request or a response is reported whole as one message, and after it the parser waits
  // for the next one exactly if the message keeps the connection open.
  lemma OneRun(max: nat, f: Fields, log: Log, m: Message) returns (g: Fields)
    requires AtStart(f, m.first) && MessageOk(max, m) && f.nread + HeadLength(m) <= max
    ensures Leads(max, f, log, Text(m), g, Told(log, m))
    ensures if KeepsOpen(m) then AtStart(g, m.first) else g.state.Dead?
    ensures g.ty == f.ty && g.nread == Counted(m.body) && !g.upgrade && g.verb == MethodOf(f, m.first)
    ensures g.major == Major(m.first) as int - '0' as int && g.minor == Minor(m.first) as int - '0' as int
    ensures CodeIs(m.first, g)
  {
    hide Leads, FirstText, FirstOk, FirstLog, BlockText, BlockOk, MessageText, MessageLog, Announces, BodyOk, BlockSays,
      BlockOffers, BlockFramed, Upgrading, Lengths, Codings, DecNumeral, Trailing, Counted;
    var h := FirstRun(max, f, log, m.first);
    Versions(m.first);
    FitsBody(max, h, m);
    g := MessageRun(max, h, FirstLog(log, m.first), m.headers, m.body);
    LeadsThen(max, f, log, FirstText(m.first), h, FirstLog(log, m.first), MessageText(m.headers, m.body), g,
              Told(log, m));
    StaysWhen(h, m);
    BlockMeans(h, m.headers);
  }

  lemma Versions(l: FirstLine)
    requires FirstOk(l)
    ensures '0' <= Major(l) <= '9' && '0' <= Minor(l) <= '9'
  {
    hide TargetOk, CodeOk;
  }

  lemma StaysWhen(f: Fields, m: Message)
    requires f.flags == NO_FLAGS && '0' <= Major(m.first) && '0' <= Minor(m.first)
    requires f.major == Major(m.first) as int - '0' as int && f.minor == Minor(m.first) as int - '0' as int
    ensures StaysOpen(BlockFramed(f, m.headers), m.body) == KeepsOpen(m)
  {
    hide BlockFramed, BlockSays, BlockOffers, Lengths, Codings, LengthGiven, Trailing;
    BlockMeans(f, m.headers);
  }

  // A message that asks for another protocol and announces no body, or a CONNECT request,
  // ends at its headers: the parser stops there, says so, and does not look at what follows.
  lemma UpgradeStops(max: nat, f: Fields, log: Log, m: Message, rest: ByteString) returns (g: Fields)
    requires AtStart(f, m.first) && FirstOk(m.first) && BlockOk(m.headers) && Upgrades(m)
    requires m.body.NoBody? && f.nread + HeadLength(m) <= max
    requires Lengths(m.headers) <= 1 && (Lengths(m.headers) > 0 ==> Codings(m.headers) == 0)
    requires (m.first.Asks? && m.first.request.verb == CONNECT)
             || (Codings(m.headers) == 0 && (Lengths(m.headers) == 0 || LengthGiven(0, m.headers) == 0))
    ensures Run(max, f, log, Text(m) + rest) == Stopped(g, Told(log, m), |rest|) && g.upgrade
  {
    hide Leads, FirstText, FirstOk, FirstLog, BlockText, BlockOk, MessageLog, BlockSays, Run, LengthGiven,
      BlockOffers, BlockFramed, Upgrading, Lengths, Codings, DecNumeral, HasBody;
    var h := FirstRun(max, f, log, m.first);
    FitsUpgrade(h, m);
    var log1, s := FirstLog(log, m.first), BlockText(m.headers) + CRLF + rest;
    g := UpgradeRun(max, h, log1, m.headers, rest);
    LeadsInto(max, f, log, FirstText(m.first), h, log1, s);
    assert MessageText(m.headers, NoBody) == BlockText(m.headers) + CRLF;
    assert FirstText(m.first) + s == Text(m) + rest;
  }

  lemma FitsUpgrade(f: Fields, m: Message)
    requires Upgrades(m) && BlockOk(m.headers) && f.flags == NO_FLAGS && f.contentLength == NO_LENGTH
    requires CodeIs(m.first, f) && Lengths(m.headers) <= 1
    requires m.first.Asks? <==> f.ty == HttpRequest
    requires m.first.Asks? ==> f.verb == m.first.request.verb
    ensures var b := BlockFramed(f, m.headers);
      && Upgrading(b) && b.contentLength <= NO_LENGTH && b.verb == f.verb
      && (Codings(m.headers) == 0 && (Lengths(m.headers) == 0 || LengthGiven(0, m.headers) == 0) ==> !HasBody(b))
  {
    hide BlockFramed, Lengths, Codings, LengthGiven, BlockSays, BlockOffers, DecNumeral, BlockOk;
    BlockMeans(f, m.headers);
    GivenOnce(NO_LENGTH, m.headers);
  }

  // ---- Several messages ------------------------------------------------------------------------------

  function Texts(ms: seq<Message>): ByteString {
    if ms == [] then [] else Text(ms[0]) + Texts(ms[1..])
  }

  ghost function ToldAll(log: Log, ms: seq<Message>): Log
    decreases |ms|
  {
    if ms == [] then log else ToldAll(Told(log, ms[0]), ms[1..])
  }

  // The limit on header bytes: a trailer counts together with the head of the next message.
  predicate Fit(max: nat, counted: nat, ms: seq<Message>)
    decreases |ms|
  {
    ms == [] || (counted + HeadLength(ms[0]) <= max && Fit(max, Counted(ms[0].body), ms[1..]))
  }

  predicate AllWait(f: Fields, ms: seq<Message>) { forall m <- ms :: AtStart(f, m.first) }

  // Any number of messages, each of which keeps the connection open but the last perhaps,
  // come out as that many messages in their order; the parser then waits for the next one
  // exactly if the last one keeps the connection open too.
  lemma {:induction false} PipelineRun(max: nat, f: Fields, log: Log, ms: seq<Message>) returns (g: Fields)
    requires AllWait(f, ms) && (forall m <- ms :: MessageOk(max, m)) && Fit(max, f.nread, ms)
    requires forall i :: 0 <= i < |ms| - 1 ==> KeepsOpen(ms[i])
    ensures Leads(max, f, log, Texts(ms), g, ToldAll(log, ms))
    ensures ms == [] ==> g == f
    ensures ms != [] ==> if KeepsOpen(ms[|ms| - 1]) then AllWait(g, ms) else g.state.Dead?
    ensures ms != [] ==> g.nread == Counted(ms[|ms| - 1].body)
    decreases |ms|
  {
    hide Leads, Text, Told, MessageOk, KeepsOpen, Counted, HeadLength;
    if ms == [] {
      g := f;
      LeadsNothing(max, f, log);
    } else {
      var m, more := ms[0], ms[1..];
      var h := OneRun(max, f, log, m);
      assert more != [] ==> KeepsOpen(ms[0]);
      WaitSame(f, h, ms);
      g := PipelineRun(max, h, Told(log, m), more);
      LeadsThen(max, f, log, Text(m), h, Told(log, m), Texts(more), g, ToldAll(log, ms));
      if more != [] {
        assert more[|more| - 1] == ms[|ms| - 1];
        WaitAll(h, g, ms);
      }
    }
  }

  // All messages on one connection are of one kind.
  lemma WaitSame(f: Fields, g: Fields, ms: seq<Message>)
    requires ms != [] && AllWait(f, ms)
    ensures AtStart(g, ms[0].first) ==> AllWait(g, ms) && AllWait(g, ms[1..])
  {
    forall m | m in ms ensures AtStart(f, m.first) && (AtStart(g, ms[0].first) ==> AtStart(g, m.first)) {
    }
  }

  lemma WaitAll(f: Fields, g: Fields, ms: seq<Message>)
    requires |ms| > 1 && AllWait(f, ms)
    ensures AllWait(g, ms[1..]) ==> AllWait(g, ms)
  {
    assert ms[1] in ms && ms[0] in ms && ms[1] in ms[1..];
  }

  // They are counted, and their data is the body data in order.
  function AllData(ms: seq<Message>): ByteString {
    if ms == [] then [] else DataOf(ms[0].body) + AllData(ms[1..])
  }

  lemma {:induction false} PipelineMeans(log: Log, ms: seq<Message>)
    ensures Completions(ToldAll(log, ms)) == Completions(log) + |ms|
    ensures BodyBytes(ToldAll(log, ms)) == BodyBytes(log) + AllData(ms)
    decreases |ms|
  {
    hide Completions, BodyBytes, Told, DataOf;
    if ms == [] {
      assert BodyBytes(log) + [] == BodyBytes(log);
    } else {
      ToldMeans(log, ms[0]);
      PipelineMeans(Told(log, ms[0]), ms[1..]);
      var b, d := BodyBytes(log), DataOf(ms[0].body);
      assert b + d + AllData(ms[1..]) == b + (d + AllData(ms[1..]));
    }
  }

  lemma ToldMeans(log: Log, m: Message)
    ensures Completions(Told(log, m)) == Completions(log) + 1
    ensures BodyBytes(Told(log, m)) == BodyBytes(log) + DataOf(m.body)
  {
    hide Append, MessageLog, DataOf;
    MessageMeans(FirstLog(log, m.first), m.headers, m.body);
    var l := Snoc(log, Notify(MessageBegin));
    assert BodyBytes(log) + [] == BodyBytes(log);
    match m.first
    case Asks(r) => AppendBytes(l, UrlData, r.target);
    case Answers(s) => AppendBytes(l, StatusData, s.reason);
  }

  // ---- An example -----------------------------------------------------------------------------------

  function Get(target: ByteString): Message {
    Message(Asks(RequestLine(GET, target, '1', '1')), [], NoBody)
  }

  lemma GetIs(max: nat, target: ByteString)
    requires target != [] && target[0] == '/' && forall ch <- target :: Visible(ch)
    ensures MessageOk(max, Get(target)) && KeepsOpen(Get(target))
  {
    hide TargetOk, BlockSays, BlockOffers, BlockOk, Lengths, Codings, LengthGiven;
    OriginForm(GET, target);
    EmptyBlock();
  }

  lemma EmptyBlock()
    ensures BlockOk([]) && Lengths([]) == 0 && Codings([]) == 0
    ensures !BlockOffers([]) && forall x: string :: !BlockSays([], x)
  {
  }

  const GET_SPACE: ByteString := "GET "
  const HEAD_END: ByteString := " HTTP/1.1\r\n\r\n"

  lemma GetParts()
    ensures VerbText(GET) + [' '] == GET_SPACE
    ensures [' '] + "HTTP/" + ['1', '.', '1'] + CRLF + CRLF == HEAD_END && |HEAD_END| == 13
  {
  }

  lemma Regroup(v: ByteString, t: ByteString, s: ByteString, h: ByteString, d: ByteString, c: ByteString)
    ensures v + (t + s) + h + d + c + (c + []) == v + t + (s + h + d + c + c)
  {
  }

  lemma GetText(target: ByteString)
    ensures Text(Get(target)) == GET_SPACE + target + HEAD_END && HeadLength(Get(target)) == |target| + 17
  {
    hide VerbText, GET_SPACE, HEAD_END;
    GetParts();
    Regroup(VerbText(GET) + [' '], target, [' '], "HTTP/", ['1', '.', '1'], CRLF);
    assert BlockText([]) == [] && [] + CRLF + [] == CRLF + [];
    assert |GET_SPACE| == 4 by { GetLength(); }
  }

  lemma GetLength()
    ensures |GET_SPACE| == 4
  {
  }

  // Two requests without a Connection line on one connection.
  lemma TwoRequests(max: nat, f: Fields, log: Log) returns (g: Fields, ms: seq<Message>)
    requires f.ty == HttpRequest && f.state.StartReq? && f.nread == 0 && max >= 19
    ensures |ms| == 2 && Texts(ms) == GET_SPACE + "/" + HEAD_END + (GET_SPACE + "/b" + HEAD_END)
    ensures Leads(max, f, log, Texts(ms), g, ToldAll(log, ms)) && g.state.StartReq?
    ensures Completions(ToldAll(log, ms)) == Completions(log) + 2
  {
    hide Leads, Text, Told, MessageOk, KeepsOpen, HeadLength, Completions, BodyBytes, GET_SPACE, HEAD_END;
    var a, b: ByteString := "/", "/b";
    GetIs(max, a);
    GetIs(max, b);
    GetText(a);
    GetText(b);
    ms := [Get(a), Get(b)];
    var more := [Get(b)];
    assert ms[1..] == more && more[1..] == [];
    assert Texts(more) == Text(Get(b)) + [];
    assert Fit(max, 0, more) && Fit(max, 0, ms);
    g := PipelineRun(max, f, log, ms);
    PipelineMeans(log, ms);
    assert ms[0] in ms;
  }

  // ---- After the last message ----------------------------------------------------------------------

  lemma DeadStep(max: nat, f: Fields, log: Log, ch: Byte)
    requires f.state.Dead? && f.nread + 1 <= max
    ensures Step(max, f, log, ch)
         == if ch == CR || ch == LF then Next(f.(nread := f.nread + 1), log) else ByteResult.Error(ClosedConnection)
  {
    hide Append, RequestHop, UrlHop, HeaderHop, BodyHop;
  }

  predicate LineBreaks(s: ByteString) { forall i :: 0 <= i < |s| ==> s[i] == CR || s[i] == LF }

  // After a message that closes the connection nothing but line breaks is taken.
  lemma {:induction false} ClosedRun(max: nat, f: Fields, log: Log, s: ByteString)
    requires f.state.Dead? && f.nread + |s| <= max
    ensures if LineBreaks(s) then Leads(max, f, log, s, f.(nread := f.nread + |s|), log)
            else Run(max, f, log, s).Failed? && Run(max, f, log, s).err == ClosedConnection
    decreases |s|
  {
    hide Step;
    if s != [] {
      DeadStep(max, f, log, s[0]);
      if s[0] == CR || s[0] == LF {
        ClosedRun(max, f.(nread := f.nread + 1), log, s[1..]);
        assert LineBreaks(s) <==> LineBreaks(s[1..]) by {
          assert s == [s[0]] + s[1..];
        }
      }
    }
  }
}
