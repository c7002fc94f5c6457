// What a header block leads to: the body that it announces, the trailer of a chunked one, and
// whether the connection takes another message after it.
module HttpMessage {
  import opened Bytes
  import opened HttpTypes
  import opened HttpHop
  import opened HttpSpec
  import opened HttpFraming
  import opened HttpLines
  import opened HttpSplit
  import opened HttpExecute

  // No length or coding has been given yet.
  predicate NoFraming(f: Fields) {
    !f.flags.contentLength && !f.flags.chunked && !f.flags.trailing && !f.flags.skipBody
  }

  // ---- What the headers ask for ------------------------------------------------------------------

  // Another protocol follows: both headers say so where that counts, or else the method does.
  predicate Upgrading(f: Fields) {
    if f.flags.upgrade && f.flags.connectionUpgrade then f.ty == HttpRequest || f.status == 101 else f.verb == CONNECT
  }

  // Nothing but the end of the connection ends the body.
  predicate EofEnds(f: Fields) {
    && f.ty != HttpRequest && !(100 <= f.status < 200) && f.status != 204 && f.status != 304
    && !f.flags.skipBody && !f.flags.chunked && f.contentLength == NO_LENGTH
  }

  // From version 1.1 on a connection stays open unless one side says that it closes; before,
  // only when one asks for it.
  predicate Persists(f: Fields) {
    if f.major >= 1 && f.minor >= 1 then !f.flags.close else f.flags.keepAlive
  }

  function NextStart(f: Fields): State {
    if EofEnds(f) || !Persists(f) then Dead else if f.ty == HttpRequest then StartReq else StartRes
  }

  lemma NextStartIs(f: Fields)
    ensures NewMessage(f) == NextStart(f) && MessageNeedsEof(f) == EofEnds(f)
  {
  }

  lemma NextStartSame(f: Fields, n: nat, s: State, upgrade: bool)
    ensures NextStart(f.(nread := n, state := s, upgrade := upgrade)) == NextStart(f)
  {
  }

  // ---- The end of the headers ------------------------------------------------------------------

  lemma BlankLineStep(max: nat, f: Fields, log: Log)
    requires AtLine(f) && f.nread + 1 <= max
    ensures Step(max, f, log, CR)
         == Next(LineStart(f).(nread := f.nread + 1, state := HeadersAlmostDone), LineLog(f, log))
  {
    hide Step, LineStart, LineLog;
    LineOver(max, f, log, CR);
    StartsThere(f);
    TrailerStep(max, LineStart(f), LineLog(f, log));
  }

  predicate HeadersDue(f: Fields) {
    f.state.HeadersAlmostDone? && !f.flags.trailing && !(f.flags.chunked && f.flags.contentLength)
  }

  lemma HeadersOver(f: Fields, log: Log)
    requires HeadersDue(f)
    ensures Chain(f, log, LF)
         == Chain(f.(upgrade := Upgrading(f), state := HeadersDone), Snoc(log, Notify(HeadersComplete)), LF)
  {
    hide Append, ResponseHop, RequestHop, UrlHop, BodyHop, HeadersDoneHop;
  }

  // Which body comes, if any.
  function BodyState(f: Fields): State {
    if f.flags.chunked then ChunkSizeStart
    else if f.contentLength == 0 then NextStart(f)
    else if f.contentLength != NO_LENGTH then BodyIdentity
    else if EofEnds(f) then BodyIdentityEof
    else NextStart(f)
  }

  predicate NoBodyComes(f: Fields) {
    !f.flags.chunked && (f.contentLength == 0 || (f.contentLength == NO_LENGTH && !EofEnds(f)))
  }

  lemma BodyBegins(f: Fields, log: Log)
    requires f.state.HeadersDone? && !f.upgrade && !f.flags.skipBody
    ensures Chain(f, log, LF)
         == Next(f.(nread := 0, state := BodyState(f)),
                 if NoBodyComes(f) then Snoc(log, Notify(MessageComplete)) else log)
  {
    hide Append, ResponseHop, RequestHop, UrlHop, BodyHop, NewMessage, NextStart, MessageNeedsEof, EofEnds,
      HeadersAlmostDoneHop;
    NextStartIs(f);
  }

  predicate HasBody(f: Fields) { f.flags.chunked || 0 < f.contentLength < NO_LENGTH }

  lemma UpgradeBegins(f: Fields, log: Log)
    requires f.state.HeadersDone? && f.upgrade && f.contentLength <= NO_LENGTH
    requires f.verb == CONNECT || f.flags.skipBody || !HasBody(f)
    ensures Chain(f, log, LF) == Stop(f.(nread := 0, state := NextStart(f)), Snoc(log, Notify(MessageComplete)))
  {
    hide Append, ResponseHop, RequestHop, UrlHop, BodyHop, NewMessage, NextStart, MessageNeedsEof, EofEnds,
      HeadersAlmostDoneHop;
    NextStartIs(f);
  }

  // The last byte of the headers.
  lemma HeadersEndStep(max: nat, f: Fields, log: Log)
    requires HeadersDue(f) && f.nread + 1 <= max && !Upgrading(f) && !f.flags.skipBody
    ensures var l := Snoc(log, Notify(HeadersComplete));
      Step(max, f, log, LF) == Next(f.(nread := 0, upgrade := false, state := BodyState(f)),
                                    if NoBodyComes(f) then Snoc(l, Notify(MessageComplete)) else l)
  {
    hide Chain, NextStart, Upgrading;
    var g := f.(nread := f.nread + 1);
    UpgradingSame(f, f.nread + 1);
    HeadersOver(g, log);
    BodyBegins(g.(upgrade := false, state := HeadersDone), Snoc(log, Notify(HeadersComplete)));
    NextStartSame(f, f.nread + 1, HeadersDone, false);
  }

  lemma UpgradingSame(f: Fields, n: nat)
    ensures Upgrading(f.(nread := n)) == Upgrading(f)
  {
  }

  // The parser hands the rest of the input over to the other protocol.
  lemma UpgradeStep(max: nat, f: Fields, log: Log)
    requires HeadersDue(f) && f.nread + 1 <= max && Upgrading(f) && f.contentLength <= NO_LENGTH
    requires f.verb == CONNECT || f.flags.skipBody || !HasBody(f)
    ensures Step(max, f, log, LF)
         == Stop(f.(nread := 0, upgrade := true, state := NextStart(f)),
                 Snoc(Snoc(log, Notify(HeadersComplete)), Notify(MessageComplete)))
  {
    hide Chain, NextStart, Upgrading;
    var g := f.(nread := f.nread + 1);
    UpgradingSame(f, f.nread + 1);
    HeadersOver(g, log);
    UpgradeBegins(g.(upgrade := true, state := HeadersDone), Snoc(log, Notify(HeadersComplete)));
    NextStartSame(f, f.nread + 1, HeadersDone, true);
  }

  // A body ends with the connection exactly when http_message_needs_eof says so: the message
  // is a response that can have a body, and nothing gives its length. No other message
  // follows it.
  lemma EofWhenNeeded(max: nat, f: Fields, log: Log)
    requires HeadersDue(f) && f.nread + 1 <= max && !Upgrading(f) && !f.flags.skipBody
    ensures var r := Step(max, f, log, LF);
      && r.Next?
      && (r.f.state == BodyIdentityEof <==>
           && f.ty != HttpRequest && !f.flags.chunked && f.contentLength == NO_LENGTH
           && !(100 <= f.status < 200) && f.status != 204 && f.status != 304)
      && (r.f.state == BodyIdentityEof ==> NextStart(r.f) == Dead)
  {
    hide Step, Upgrading, Persists;
    HeadersEndStep(max, f, log);
  }

  // ---- Messages -----------------------------------------------------------------------------------

  // What comes after a header block.
  datatype Body =
    | NoBody
    | Sized(data: ByteString)
    | Chunked(chunks: seq<Chunk>, zeros: ByteString, extension: ByteString, trailer: seq<HeaderLine>)

  // A trailer may even give a length, which is then of no account.
  predicate TrailerOk(max: nat, trailer: seq<HeaderLine>) {
    BlockOk(trailer) && Lengths(trailer) <= 1 && |BlockText(trailer)| + 2 <= max
  }

  // The body that the headers announce; f are the fields after them.
  predicate BodyOk(max: nat, f: Fields, body: Body) {
    match body
    case NoBody => NoBodyComes(f)
    case Sized(data) => !f.flags.chunked && f.contentLength == |data| && 0 < |data| < NO_LENGTH
    case Chunked(cs, zeros, extension, trailer) =>
      && f.flags.chunked && !f.flags.contentLength
      && (forall c <- cs :: ChunkOk(max, c)) && SizeOk(max, zeros, extension, 0) && TrailerOk(max, trailer)
  }

  // The encoding of a body: for a chunked one its chunks, a chunk of size zero, the lines of
  // the trailer.
  function BodyText(body: Body): ByteString {
    match body
    case NoBody => []
    case Sized(data) => data
    case Chunked(cs, zeros, extension, trailer) =>
      ChunksText(cs) + SizeLine(zeros, extension) + BlockText(trailer) + CRLF
  }

  function DataOf(body: Body): ByteString {
    match body case NoBody => [] case Sized(data) => data case Chunked(cs, _, _, _) => Concatenated(cs)
  }

  // What the callbacks see of it.
  ghost function BodyLog(log: Log, body: Body): Log {
    match body
    case NoBody => log
    case Sized(data) => Append(log, BodyData, data)
    case Chunked(cs, _, _, trailer) =>
      Snoc(BlockLog(Snoc(ChunksLog(log, cs), Notify(ChunkHeader)), trailer), Notify(ChunkComplete))
  }

  // The lines of the trailer count for the connection as those of the header block do.
  function Trailing(body: Body): seq<HeaderLine> {
    match body case Chunked(_, _, _, trailer) => trailer case _ => []
  }

  // What the next message begins with: the trailer and the line end after it stay counted.
  function Counted(body: Body): nat {
    match body case Chunked(_, _, _, trailer) => |BlockText(trailer)| + 2 case _ => 0
  }

  // The connection stays open after a message whose block left the fields f.
  predicate StaysOpen(f: Fields, body: Body) {
    if f.major >= 1 && f.minor >= 1 then !f.flags.close && !BlockSays(Trailing(body), "close")
    else f.flags.keepAlive || BlockSays(Trailing(body), "keep-alive")
  }

  // A finished message: the fields that are left of those after the block.
  predicate Finished(f: Fields, body: Body, g: Fields) {
    && g == f.(state := g.state, hstate := g.hstate, index := g.index, flags := g.flags, nread := Counted(body),
               contentLength := g.contentLength, upgrade := false)
    && g.state == if !StaysOpen(f, body) then Dead else if f.ty == HttpRequest then StartReq else StartRes
  }

  lemma SizedRun(max: nat, f: Fields, log: Log, data: ByteString) returns (g: Fields)
    requires f.state.BodyIdentity? && f.nread == 0 && !f.upgrade && BodyOk(max, f, Sized(data)) && !EofEnds(f)
    ensures Leads(max, f, log, BodyText(Sized(data)), g, Snoc(BodyLog(log, Sized(data)), Notify(MessageComplete)))
    ensures Finished(f, Sized(data), g)
  {
    hide Leads, Append;
    IdentityRun(max, f, log, data);
    var e := f.(contentLength := 0, state := MessageDone);
    NextStartIs(e);
    NothingTrails(f);
    g := e.(state := NewMessage(e));
  }

  lemma NothingTrails(f: Fields)
    ensures forall body :: Trailing(body) == [] ==> (StaysOpen(f, body) <==> Persists(f))
  {
    NothingSaid(f.flags);
    assert !BlockSays([], "close") && !BlockSays([], "keep-alive");
  }

  // From the end of the last chunk's size line.
  lemma TrailerRun(max: nat, f: Fields, log: Log, trailer: seq<HeaderLine>) returns (g: Fields)
    requires f.state.HeaderFieldStart? && f.flags.trailing && !f.flags.contentLength && f.flags.chunked
    requires !f.upgrade && f.nread == 0 && TrailerOk(max, trailer)
    ensures Leads(max, f, log, BlockText(trailer) + CRLF, g,
                  Snoc(Snoc(BlockLog(log, trailer), Notify(ChunkComplete)), Notify(MessageComplete)))
    ensures g == BlockFramed(f, trailer).(state := g.state, hstate := g.hstate, index := g.index,
                                          nread := |BlockText(trailer)| + 2)
    ensures g.state == NextStart(g)
  {
    hide Leads, Step, BlockOk, BlockText, BlockLog, BlockFramed, NewMessage, LengthGiven, FlagsAfter;
    var h, logH := BlockRun(max, f, log, trailer);
    BlockMeans(f, trailer);
    TrailerFlags(f.flags, trailer);
    var log1 := BlockLog(log, trailer);
    var log2 := Snoc(Snoc(log1, Notify(ChunkComplete)), Notify(MessageComplete));
    StartsThere(h);
    BlankLineStep(max, h, logH);
    var e := LineStart(h).(nread := h.nread + 1, state := HeadersAlmostDone);
    LastStep(max, e, log1);
    NextStartIs(e);
    NextStartSame(e, e.nread + 1, NewMessage(e), e.upgrade);
    g := e.(nread := e.nread + 1, state := NewMessage(e));
    LeadsLine(max, h, logH, e, log1, g, log2);
    LeadsThen(max, f, log, BlockText(trailer), h, logH, CRLF, g, log2);
  }

  lemma TrailerFlags(fl: Flags, ls: seq<HeaderLine>)
    ensures FlagsAfter(fl, ls).trailing == fl.trailing && FlagsAfter(fl, ls).skipBody == fl.skipBody
    ensures fl.chunked ==> FlagsAfter(fl, ls).chunked
    ensures FlagsAfter(fl, ls).close == (fl.close || BlockSays(ls, "close"))
    ensures FlagsAfter(fl, ls).keepAlive == (fl.keepAlive || BlockSays(ls, "keep-alive"))
  {
  }

  // Parsing the chunked encoding of any list of nonempty chunks reports a body equal to
  // their concatenation and completes exactly one message, with nothing left over.
  lemma ChunkedRun(max: nat, f: Fields, log: Log, body: Body) returns (g: Fields)
    requires f.state.ChunkSizeStart? && f.nread == 0 && !f.upgrade && body.Chunked? && BodyOk(max, f, body)
    ensures Leads(max, f, log, BodyText(body), g, Snoc(BodyLog(log, body), Notify(MessageComplete)))
    ensures Finished(f, body, g)
  {
    hide Leads, ChunkOk, SizeOk, ChunksText, SizeLine, BlockText, BlockLog, ChunksLog, TrailerOk, BlockFramed,
      FlagsAfter;
    var t, s := ChunksText(body.chunks), SizeLine(body.zeros, body.extension);
    var log1 := ChunksLog(log, body.chunks);
    var log2 := Snoc(log1, Notify(ChunkHeader));
    var a := ChunksRun(max, f, log, body.chunks);
    SizeLineRun(max, a, log1, body.zeros, body.extension, 0);
    var b := AfterSizeLine(a, 0);
    LeadsThen(max, f, log, t, a, log1, s, b, log2);
    g := TrailerRun(max, b, log2, body.trailer);
    BlockMeans(b, body.trailer);
    TrailerFlags(b.flags, body.trailer);
    LeadsThen(max, f, log, t + s, b, log2, BlockText(body.trailer) + CRLF, g,
              Snoc(BodyLog(log, body), Notify(MessageComplete)));
    assert t + s + (BlockText(body.trailer) + CRLF) == BodyText(body);
  }

  // From the last byte of the header block on.
  lemma BodyFollows(max: nat, f: Fields, log: Log, body: Body) returns (g: Fields)
    requires HeadersDue(f) && f.nread + 1 <= max && !Upgrading(f) && !f.flags.skipBody && BodyOk(max, f, body)
    ensures Leads(max, f, log, [LF] + BodyText(body), g,
                  Snoc(BodyLog(Snoc(log, Notify(HeadersComplete)), body), Notify(MessageComplete)))
    ensures Finished(f, body, g)
  {
    hide Leads, Step, ChunkOk, SizeOk, TrailerOk, BodyText, BodyLog, NextStart, Upgrading, StaysOpen;
    HeadersEndStep(max, f, log);
    var log1 := Snoc(log, Notify(HeadersComplete));
    var e := f.(nread := 0, upgrade := false, state := BodyState(f));
    var log2 := Snoc(BodyLog(log1, body), Notify(MessageComplete));
    match body
    case NoBody =>
      NoneFollows(f, log1);
      g := e;
      LeadsByte(max, f, log, LF, g, log2);
      assert [LF] + BodyText(body) == [LF];
    case Sized(data) =>
      LeadsByte(max, f, log, LF, e, log1);
      g := SizedRun(max, e, log1, data);
      FinishedSame(f, e, body, g);
      LeadsThen(max, f, log, [LF], e, log1, BodyText(body), g, log2);
    case Chunked(_, _, _, _) =>
      LeadsByte(max, f, log, LF, e, log1);
      g := ChunkedRun(max, e, log1, body);
      FinishedSame(f, e, body, g);
      LeadsThen(max, f, log, [LF], e, log1, BodyText(body), g, log2);
  }

  lemma NoneFollows(f: Fields, log: Log)
    requires NoBodyComes(f)
    ensures BodyText(NoBody) == [] && BodyLog(log, NoBody) == log
    ensures Finished(f, NoBody, f.(nread := 0, upgrade := false, state := BodyState(f)))
  {
    NothingTrails(f);
  }

  // What is left does not depend on where the parser was.
  lemma FinishedSame(f: Fields, e: Fields, body: Body, g: Fields)
    requires e == f.(state := e.state, hstate := e.hstate, index := e.index, nread := e.nread, upgrade := e.upgrade)
    ensures Finished(e, body, g) == Finished(f, body, g)
  {
  }

  lemma OkSame(max: nat, f: Fields, e: Fields, body: Body)
    requires e == f.(state := e.state, hstate := e.hstate, index := e.index, nread := e.nread)
    ensures BodyOk(max, e, body) == BodyOk(max, f, body) && Upgrading(e) == Upgrading(f)
  {
  }

  // The whole message after its first line.
  ghost function MessageLog(log: Log, ls: seq<HeaderLine>, body: Body): Log {
    Snoc(BodyLog(Snoc(BlockLog(log, ls), Notify(HeadersComplete)), body), Notify(MessageComplete))
  }

  function MessageText(ls: seq<HeaderLine>, body: Body): ByteString {
    BlockText(ls) + CRLF + BodyText(body)
  }

  // The end of a header block: what is left to look at is the line feed after it.
  lemma BlockEndRun(max: nat, f: Fields, log: Log, ls: seq<HeaderLine>) returns (h: Fields)
    requires AtLine(f) && NoFraming(LineStart(f)) && f.nread + |BlockText(ls)| + 2 <= max
    requires BlockOk(ls) && Lengths(ls) <= 1
    ensures Leads(max, f, log, BlockText(ls) + [CR], h, BlockLog(LineLog(f, log), ls))
    ensures h == BlockFramed(LineStart(f), ls).(state := HeadersAlmostDone, hstate := h.hstate, index := h.index,
                                                nread := f.nread + |BlockText(ls)| + 1)
  {
    hide Leads, LineStart, LineLog, Step, BlockOk, BlockText, BlockLog, BlockFramed, AtLine, Lengths;
    var c, logC := BlockRun(max, f, log, ls);
    var log1 := BlockLog(LineLog(f, log), ls);
    BlankLineStep(max, c, logC);
    h := LineStart(c).(nread := c.nread + 1, state := HeadersAlmostDone);
    LeadsByte(max, c, logC, CR, h, log1);
    LeadsThen(max, f, log, BlockText(ls), c, logC, [CR], h, log1);
  }

  // The fields after a block do not speak of a trailer, and have both framing flags only if
  // the block has both kinds of lines.
  lemma BlockFlags(f: Fields, ls: seq<HeaderLine>)
    requires NoFraming(f)
    ensures var b := BlockFramed(f, ls);
      && !b.flags.trailing && !b.flags.skipBody
      && (b.flags.chunked <==> Codings(ls) > 0) && (b.flags.contentLength <==> Lengths(ls) > 0)
      && b.contentLength == LengthGiven(f.contentLength, ls)
  {
    hide BlockFramed, LengthGiven, Lengths, Codings, BlockSays, BlockOffers;
    BlockMeans(f, ls);
  }

  // The number of the one Content-Length line, which is within the guard.
  lemma {:induction false} GivenOnce(n: nat, ls: seq<HeaderLine>)
    requires BlockOk(ls)
    ensures Lengths(ls) > 0 ==> LengthGiven(n, ls) == LengthGiven(0, ls) < NO_LENGTH
    ensures Lengths(ls) == 0 ==> LengthGiven(n, ls) == n
    decreases |ls|
  {
    hide LineOk, CodingLineOk, DecNumeral, TokensLineOk, UpgradeLineOk;
    if ls != [] {
      assert HeaderOk(ls[0]);
      GivenOnce(if ls[0].Length? then ls[0].n else n, ls[1..]);
      GivenOnce(if ls[0].Length? then ls[0].n else 0, ls[1..]);
    }
  }

  // Any header block that asks for no upgrade, and the body that it announces, are reported
  // line by line and byte by byte as one message. The parser is then at the start of the next
  // one exactly if the connection stays open.
  lemma MessageRun(max: nat, f: Fields, log: Log, ls: seq<HeaderLine>, body: Body) returns (g: Fields)
    requires AtLine(f) && NoFraming(LineStart(f)) && f.nread + |BlockText(ls)| + 2 <= max
    requires BlockOk(ls) && Lengths(ls) <= 1 && !(Lengths(ls) > 0 && Codings(ls) > 0)
    requires var b := BlockFramed(LineStart(f), ls); !Upgrading(b) && BodyOk(max, b, body)
    ensures Leads(max, f, log, MessageText(ls, body), g, MessageLog(LineLog(f, log), ls, body))
    ensures Finished(BlockFramed(LineStart(f), ls), body, g)
  {
    hide Leads, LineStart, LineLog, BlockOk, BlockText, BlockLog, BlockFramed, AtLine, BodyOk, BodyText, BodyLog,
      Upgrading, Finished, Lengths, Codings, LengthGiven;
    var b, t := BlockFramed(LineStart(f), ls), BlockText(ls);
    var log1 := BlockLog(LineLog(f, log), ls);
    var h := BlockEndRun(max, f, log, ls);
    BlockFlags(LineStart(f), ls);
    OkSame(max, b, h, body);
    g := BodyFollows(max, h, log1, body);
    FinishedSame(b, h, body, g);
    LeadsThen(max, f, log, t + [CR], h, log1, [LF] + BodyText(body), g, MessageLog(LineLog(f, log), ls, body));
    assert t + [CR] + ([LF] + BodyText(body)) == MessageText(ls, body);
  }

  // ---- Bodies that end with the connection -----------------------------------------------------------

  lemma EofByteStep(max: nat, f: Fields, log: Log, ch: Byte)
    requires f.state.BodyIdentityEof?
    ensures Step(max, f, log, ch) == Next(f, Append(log, BodyData, [ch]))
  {
    hide Append, ResponseHop, RequestHop, UrlHop, HeaderHop;
    AppendTwice(log, BodyData, [], [ch]);
    assert [] + [ch] == [ch];
  }

  lemma {:induction false} EofRun(max: nat, f: Fields, log: Log, data: ByteString)
    requires f.state.BodyIdentityEof?
    ensures Leads(max, f, log, data, f, if data == [] then log else Append(log, BodyData, data))
    decreases |data|
  {
    hide Step, Append, Leads;
    if data == [] {
      LeadsNothing(max, f, log);
    } else {
      var log1, more := Append(log, BodyData, [data[0]]), data[1..];
      EofByteStep(max, f, log, data[0]);
      LeadsByte(max, f, log, data[0], f, log1);
      EofRun(max, f, log1, more);
      AppendTwice(log, BodyData, [data[0]], more);
      assert [data[0]] + more == data;
      if more == [] {
        assert data == [data[0]];
      }
      LeadsThen(max, f, log, [data[0]], f, log1, more, f, Append(log, BodyData, data));
    }
  }

  // A response whose length nothing gives: whatever comes is its body, and no message is
  // complete before the stream ends.
  lemma OpenEndedRun(max: nat, f: Fields, log: Log, ls: seq<HeaderLine>, data: ByteString) returns (g: Fields)
    requires AtLine(f) && NoFraming(LineStart(f)) && f.nread + |BlockText(ls)| + 2 <= max
    requires BlockOk(ls) && Lengths(ls) <= 1 && !(Lengths(ls) > 0 && Codings(ls) > 0)
    requires var b := BlockFramed(LineStart(f), ls); !Upgrading(b) && EofEnds(b)
    ensures var l := Snoc(BlockLog(LineLog(f, log), ls), Notify(HeadersComplete));
      Leads(max, f, log, BlockText(ls) + CRLF + data, g, if data == [] then l else Append(l, BodyData, data))
    ensures g.state == BodyIdentityEof && g.nread == 0
  {
    hide Leads, LineStart, LineLog, BlockOk, BlockText, BlockLog, BlockFramed, AtLine, Step, Append,
      Upgrading, EofEnds, Lengths, Codings, LengthGiven;
    var b, t := BlockFramed(LineStart(f), ls), BlockText(ls);
    var log1 := BlockLog(LineLog(f, log), ls);
    var h := BlockEndRun(max, f, log, ls);
    BlockFlags(LineStart(f), ls);
    OkSame(max, b, h, NoBody);
    EofSame(b, h);
    HeadersEndStep(max, h, log1);
    var log2 := Snoc(log1, Notify(HeadersComplete));
    g := h.(nread := 0, upgrade := false, state := BodyIdentityEof);
    LeadsByte(max, h, log1, LF, g, log2);
    LeadsThen(max, f, log, t + [CR], h, log1, [LF], g, log2);
    EofRun(max, g, log2, data);
    LeadsThen(max, f, log, t + [CR] + [LF], g, log2, data, g,
              if data == [] then log2 else Append(log2, BodyData, data));
    assert t + [CR] + [LF] + data == t + CRLF + data;
  }

  lemma EofSame(f: Fields, e: Fields)
    requires e == f.(state := e.state, hstate := e.hstate, index := e.index, nread := e.nread)
    requires EofEnds(f)
    ensures EofEnds(e) && !e.flags.chunked && e.contentLength == NO_LENGTH
  {
  }

  // ---- What a message amounts to ---------------------------------------------------------------------

  // Its data is reported as a body, and one message is complete.
  lemma MessageMeans(log: Log, ls: seq<HeaderLine>, body: Body)
    ensures BodyBytes(MessageLog(log, ls, body)) == BodyBytes(log) + DataOf(body)
    ensures Completions(MessageLog(log, ls, body)) == Completions(log) + 1
  {
    hide BlockLog, BodyLog, DataOf;
    BlockBody(log, ls);
    BodyMeans(Snoc(BlockLog(log, ls), Notify(HeadersComplete)), body);
    assert BodyBytes(log) + [] == BodyBytes(log);
    var b := BodyBytes(log) + DataOf(body);
    assert b + [] == b;
  }

  lemma BodyMeans(log: Log, body: Body)
    ensures BodyBytes(BodyLog(log, body)) == BodyBytes(log) + DataOf(body)
    ensures Completions(BodyLog(log, body)) == Completions(log)
  {
    hide BlockLog, ChunksLog, Concatenated;
    match body
    case NoBody => assert BodyBytes(log) + [] == BodyBytes(log);
    case Sized(data) => AppendBytes(log, BodyData, data);
    case Chunked(cs, _, _, trailer) =>
      var l := ChunksLog(log, cs);
      ChunksBody(log, cs);
      BlockBody(Snoc(l, Notify(ChunkHeader)), trailer);
      assert BodyBytes(l) + [] == BodyBytes(l);
  }

  // ---- Upgrades ---------------------------------------------------------------------------------------

  // After the headers of a message that asks for another protocol and has no body of its own,
  // or whose method is CONNECT, the parser stops, says so in the field upgrade, and leaves
  // whatever follows alone.
  lemma UpgradeRun(max: nat, f: Fields, log: Log, ls: seq<HeaderLine>, rest: ByteString) returns (g: Fields)
    requires AtLine(f) && NoFraming(LineStart(f)) && f.nread + |BlockText(ls)| + 2 <= max
    requires BlockOk(ls) && Lengths(ls) <= 1 && !(Lengths(ls) > 0 && Codings(ls) > 0)
    requires var b := BlockFramed(LineStart(f), ls);
      Upgrading(b) && b.contentLength <= NO_LENGTH && (b.verb == CONNECT || !HasBody(b))
    ensures Run(max, f, log, BlockText(ls) + CRLF + rest)
         == Stopped(g, MessageLog(LineLog(f, log), ls, NoBody), |rest|)
    ensures g.upgrade && g.nread == 0
  {
    hide Leads, LineStart, LineLog, BlockOk, BlockText, BlockLog, BlockFramed, AtLine, HasBody, Run, Step,
      Upgrading, Lengths, Codings, LengthGiven, NextStart;
    var b, t := BlockFramed(LineStart(f), ls), BlockText(ls);
    var log1 := BlockLog(LineLog(f, log), ls);
    var h := BlockEndRun(max, f, log, ls);
    BlockFlags(LineStart(f), ls);
    OkSame(max, b, h, NoBody);
    HasSame(b, h);
    UpgradeStep(max, h, log1);
    g := h.(nread := 0, upgrade := true, state := NextStart(h));
    StopsAt(max, h, log1, [LF] + rest);
    LeadsInto(max, f, log, t + [CR], h, log1, [LF] + rest);
    assert t + [CR] + ([LF] + rest) == t + CRLF + rest;
    assert ([LF] + rest)[0] == LF;
  }

  lemma HasSame(f: Fields, e: Fields)
    requires e == f.(state := e.state, hstate := e.hstate, index := e.index, nread := e.nread)
    ensures HasBody(e) == HasBody(f)
  {
  }

  lemma StopsAt(max: nat, f: Fields, log: Log, s: ByteString)
    requires s != [] && Step(max, f, log, s[0]).Stop?
    ensures var r := Step(max, f, log, s[0]); Run(max, f, log, s) == Stopped(r.f, r.log, |s| - 1)
  {
    hide Step;
  }

  // With a body of its own the message is read to its end first.
  lemma UpgradeBodyStep(max: nat, f: Fields, log: Log)
    requires HeadersDue(f) && f.nread + 1 <= max && Upgrading(f) && f.verb != CONNECT && !f.flags.skipBody
    requires !f.flags.chunked && 0 < f.contentLength < NO_LENGTH
    ensures Step(max, f, log, LF)
         == Next(f.(nread := 0, upgrade := true, state := BodyIdentity), Snoc(log, Notify(HeadersComplete)))
  {
    hide Chain, Upgrading;
    var g := f.(nread := f.nread + 1);
    UpgradingSame(f, f.nread + 1);
    HeadersOver(g, log);
    UpgradeBody(g.(upgrade := true, state := HeadersDone), Snoc(log, Notify(HeadersComplete)));
  }

  lemma UpgradeBody(f: Fields, log: Log)
    requires f.state.HeadersDone? && f.upgrade && f.verb != CONNECT && !f.flags.skipBody
    requires !f.flags.chunked && 0 < f.contentLength < NO_LENGTH
    ensures Chain(f, log, LF) == Next(f.(nread := 0, state := BodyIdentity), log)
  {
    hide Append, ResponseHop, RequestHop, UrlHop, BodyHop, NewMessage, MessageNeedsEof, HeadersAlmostDoneHop;
  }

  // The last byte of the body.
  lemma UpgradeLast(max: nat, f: Fields, log: Log, ch: Byte)
    requires f.state.BodyIdentity? && f.contentLength == 1 && f.upgrade
    ensures var g := f.(contentLength := 0, state := MessageDone);
      Step(max, f, log, ch)
      == Stop(g.(state := NewMessage(g)), Snoc(Append(log, BodyData, [ch]), Notify(MessageComplete)))
  {
    hide Append, ResponseHop, RequestHop, UrlHop, HeaderHop, NewMessage;
    AppendTwice(log, BodyData, [], [ch]);
    assert [] + [ch] == [ch];
    UpgradeDone(f.(contentLength := 0, state := MessageDone), Append(log, BodyData, [ch]), ch);
  }

  lemma UpgradeDone(f: Fields, log: Log, ch: Byte)
    requires f.state.MessageDone? && f.upgrade
    ensures Chain(f, log, ch) == Stop(f.(state := NewMessage(f)), Snoc(log, Notify(MessageComplete)))
  {
    hide NewMessage, Append, ResponseHop, RequestHop, UrlHop, HeaderHop, Unhex;
  }

  lemma UpgradeData(max: nat, f: Fields, log: Log, data: ByteString, rest: ByteString) returns (g: Fields)
    requires f.state.BodyIdentity? && f.contentLength == |data| && 0 < |data| < NO_LENGTH && f.upgrade
    ensures Run(max, f, log, data + rest)
         == Stopped(g, Snoc(Append(log, BodyData, data), Notify(MessageComplete)), |rest|)
    ensures g.upgrade
  {
    hide Append, Run, NewMessage, Step;
    var n := |data| - 1;
    var last := [data[n]] + rest;
    var h, log1 := f.(contentLength := 1), if n == 0 then log else Append(log, BodyData, data[..n]);
    UpgradeLast(max, h, log1, data[n]);
    var e := h.(contentLength := 0, state := MessageDone);
    g := e.(state := NewMessage(e));
    assert last[0] == data[n];
    StopsAt(max, h, log1, last);
    if n == 0 {
      assert data + rest == last && data == [data[n]];
    } else {
      BodyRun(max, f, log, data + rest, n);
      assert (data + rest)[n..] == last && (data + rest)[..n] == data[..n];
      AppendTwice(log, BodyData, data[..n], [data[n]]);
      assert data[..n] + [data[n]] == data;
    }
  }

  // A message that asks for another protocol and has a Content-Length: the parser stops after
  // the last byte of its body.
  lemma UpgradeBodyRun(max: nat, f: Fields, log: Log, ls: seq<HeaderLine>, data: ByteString, rest: ByteString)
    returns (g: Fields)
    requires AtLine(f) && NoFraming(LineStart(f)) && f.nread + |BlockText(ls)| + 2 <= max
    requires BlockOk(ls) && Lengths(ls) == 1 && Codings(ls) == 0
    requires var b := BlockFramed(LineStart(f), ls);
      Upgrading(b) && b.verb != CONNECT && b.contentLength == |data| && 0 < |data| < NO_LENGTH
    ensures Run(max, f, log, MessageText(ls, Sized(data)) + rest)
         == Stopped(g, MessageLog(LineLog(f, log), ls, Sized(data)), |rest|)
    ensures g.upgrade
  {
    hide Leads, LineStart, LineLog, BlockOk, BlockText, BlockLog, BlockFramed, AtLine, Run, Step, Append,
      Upgrading, Lengths, Codings, LengthGiven;
    var b, t := BlockFramed(LineStart(f), ls), BlockText(ls);
    var log1 := BlockLog(LineLog(f, log), ls);
    var h := BlockEndRun(max, f, log, ls);
    BlockFlags(LineStart(f), ls);
    OkSame(max, b, h, NoBody);
    UpgradeBodyStep(max, h, log1);
    var e, log2 := h.(nread := 0, upgrade := true, state := BodyIdentity), Snoc(log1, Notify(HeadersComplete));
    LeadsByte(max, h, log1, LF, e, log2);
    LeadsThen(max, f, log, t + [CR], h, log1, [LF], e, log2);
    g := UpgradeData(max, e, log2, data, rest);
    LeadsInto(max, f, log, t + [CR] + [LF], e, log2, data + rest);
    assert t + [CR] + [LF] + (data + rest) == MessageText(ls, Sized(data)) + rest;
  }
}
