// Message framing: the lengths that the parser accepts, and bodies delimited by
// chunk sizes (section 4.1 of RFC 7230) or by Content-Length.
module HttpFraming {
  import opened Bytes
  import opened HttpTypes
  import opened HttpHop
  import opened HttpSpec
  import opened HttpExecute
  import opened HttpSplit

  // ---- Numerals ------------------------------------------------------------------

  // v followed by the digits ds, with no bound on its size.
  function HexNumeral(v: nat, ds: ByteString): nat
    requires forall d <- ds :: Unhex(d) != -1
    decreases ds
  {
    if ds == [] then v else HexNumeral(v * 16 + Unhex(ds[0]), ds[1..])
  }

  function DecNumeral(v: nat, ds: ByteString): nat
    requires forall d <- ds :: IsNum(d)
    decreases ds
  {
    if ds == [] then v else DecNumeral(v * 10 + Digit(ds[0]), ds[1..])
  }

  // The largest lengths that pass the source's overflow guards.
  const MAX_HEX: int := (NO_LENGTH - 16) / 16 * 16 + 15
  const MAX_DEC: int := (NO_LENGTH - 10) / 10 * 10 + 9

  lemma {:induction false} HexNumeralGrows(v: nat, ds: ByteString)
    requires forall d <- ds :: Unhex(d) != -1
    ensures HexNumeral(v, ds) >= v
    decreases ds
  {
    if ds != [] {
      HexNumeralGrows(v * 16 + Unhex(ds[0]), ds[1..]);
    }
  }

  lemma {:induction false} DecNumeralGrows(v: nat, ds: ByteString)
    requires forall d <- ds :: IsNum(d)
    ensures DecNumeral(v, ds) >= v
    decreases ds
  {
    if ds != [] {
      DecNumeralGrows(v * 10 + Digit(ds[0]), ds[1..]);
    }
  }

  // ---- Single steps -----------------------------------------------------------------

  lemma SizeStartStep(max: nat, f: Fields, log: Log, d: Byte)
    requires f.state.ChunkSizeStart? && f.flags.chunked && f.nread == 0 && 1 <= max && Unhex(d) != -1
    ensures Step(max, f, log, d) == Next(f.(nread := 1, contentLength := Unhex(d), state := ChunkSize), log)
  {
    hide Unhex, Append, ResponseHop, RequestHop, UrlHop, HeaderHop;
  }

  lemma SizeDigitStep(max: nat, f: Fields, log: Log, d: Byte)
    requires f.state.ChunkSize? && f.flags.chunked && f.nread + 1 <= max && Unhex(d) != -1 && d != CR
    ensures Step(max, f, log, d)
         == if (NO_LENGTH - 16) / 16 < f.contentLength then ByteResult.Error(InvalidContentLength)
            else Next(f.(nread := f.nread + 1, contentLength := f.contentLength * 16 + Unhex(d)), log)
  {
    hide Unhex, Append, ResponseHop, RequestHop, UrlHop, HeaderHop;
  }

  lemma SizeEndStep(max: nat, f: Fields, log: Log)
    requires f.state.ChunkSize? && f.flags.chunked && f.nread + 1 <= max
    ensures Step(max, f, log, CR) == Next(f.(nread := f.nread + 1, state := ChunkSizeAlmostDone), log)
  {
    hide Append, ResponseHop, RequestHop, UrlHop, HeaderHop, Unhex;
  }

  lemma SizeLineStep(max: nat, f: Fields, log: Log)
    requires f.state.ChunkSizeAlmostDone? && f.flags.chunked && f.nread + 1 <= max
    ensures Step(max, f, log, LF)
         == Next(if f.contentLength == 0
                 then f.(nread := 0, flags := f.flags.(trailing := true), state := HeaderFieldStart)
                 else f.(nread := 0, state := ChunkData), Snoc(log, Notify(ChunkHeader)))
  {
    hide Append, ResponseHop, RequestHop, UrlHop, HeaderHop, Unhex;
  }

  lemma DataEndStep(max: nat, f: Fields, log: Log)
    requires f.state.ChunkDataAlmostDone? && f.flags.chunked && f.contentLength == 0
    ensures Step(max, f, log, CR) == Next(f.(state := ChunkDataDone), log)
  {
    hide Append, ResponseHop, RequestHop, UrlHop, HeaderHop, Unhex;
  }

  lemma ChunkEndStep(max: nat, f: Fields, log: Log)
    requires f.state.ChunkDataDone? && f.flags.chunked
    ensures Step(max, f, log, LF)
         == Next(f.(nread := 0, state := ChunkSizeStart), Snoc(log, Notify(ChunkComplete)))
  {
    hide Append, ResponseHop, RequestHop, UrlHop, HeaderHop, Unhex;
  }

  lemma TrailerStep(max: nat, f: Fields, log: Log)
    requires f.state.HeaderFieldStart? && f.nread + 1 <= max
    ensures Step(max, f, log, CR) == Next(f.(nread := f.nread + 1, state := HeadersAlmostDone), log)
  {
    hide Append, Token, ResponseHop, RequestHop, UrlHop, BodyHop;
  }

  lemma LastStep(max: nat, f: Fields, log: Log)
    requires f.state.HeadersAlmostDone? && f.flags.trailing && !f.upgrade && f.nread + 1 <= max
    ensures Step(max, f, log, LF)
         == Next(f.(nread := f.nread + 1, state := NewMessage(f)),
                 Snoc(Snoc(log, Notify(ChunkComplete)), Notify(MessageComplete)))
  {
    hide Chain, NewMessage, Append;
    var g := f.(nread := f.nread + 1);
    TrailerEnds(g, log);
    MessageEnds(g.(state := MessageDone), Snoc(log, Notify(ChunkComplete)), LF);
    NewMessageIgnoresCount(f, f.nread + 1);
  }

  lemma TrailerEnds(f: Fields, log: Log)
    requires f.state.HeadersAlmostDone? && f.flags.trailing
    ensures Chain(f, log, LF) == Chain(f.(state := MessageDone), Snoc(log, Notify(ChunkComplete)), LF)
  {
    hide BodyHop, Append, ResponseHop, RequestHop, UrlHop;
  }

  lemma MessageEnds(f: Fields, log: Log, ch: Byte)
    requires f.state.MessageDone? && !f.upgrade
    ensures Chain(f, log, ch) == Next(f.(state := NewMessage(f)), Snoc(log, Notify(MessageComplete)))
  {
    hide NewMessage, Append, ResponseHop, RequestHop, UrlHop, HeaderHop, Unhex;
    assert Open(f.state).None?;
  }

  lemma NewMessageIgnoresCount(f: Fields, k: nat)
    ensures NewMessage(f.(state := MessageDone, nread := k)) == NewMessage(f)
  {
  }

  // ---- Chunk sizes ---------------------------------------------------------------------

  // The digits of a chunk size are accepted exactly when their numeral is at most
  // MAX_HEX, and then the length is that numeral: nothing wraps.
  lemma {:induction false} SizeDigits(max: nat, f: Fields, log: Log, ds: ByteString)
    requires f.state.ChunkSize? && f.flags.chunked && f.nread + |ds| <= max && f.contentLength <= MAX_HEX
    requires forall d <- ds :: Unhex(d) != -1
    ensures var v := HexNumeral(f.contentLength, ds);
      if v <= MAX_HEX then
        Run(max, f, log, ds) == Consumed(f.(nread := f.nread + |ds|, contentLength := v), log)
      else Run(max, f, log, ds).Failed? && Run(max, f, log, ds).err == InvalidContentLength
    decreases |ds|
  {
    hide Step, Unhex;
    if ds != [] {
      NotCR(ds[0]);
      SizeDigitStep(max, f, log, ds[0]);
      var v := f.contentLength * 16 + Unhex(ds[0]);
      if (NO_LENGTH - 16) / 16 < f.contentLength {
        HexNumeralGrows(v, ds[1..]);
      } else {
        SizeDigits(max, f.(nread := f.nread + 1, contentLength := v), log, ds[1..]);
      }
    }
  }

  lemma NotCR(d: Byte)
    requires Unhex(d) != -1
    ensures d != CR && 0 <= Unhex(d) < 16
  {
  }

  // ---- Runs that consume all they are given ---------------------------------------------

  ghost predicate Leads(max: nat, f: Fields, log: Log, s: ByteString, g: Fields, log': Log) {
    Run(max, f, log, s) == Consumed(g, log')
  }

  lemma LeadsByte(max: nat, f: Fields, log: Log, ch: Byte, g: Fields, log': Log)
    requires Step(max, f, log, ch) == Next(g, log')
    ensures Leads(max, f, log, [ch], g, log')
  {
    hide Step;
    var one := [ch];
    assert one[0] == ch && one[1..] == [];
    assert Run(max, g, log', one[1..]) == Consumed(g, log');
  }

  lemma LeadsThen(max: nat, f: Fields, log: Log, a: ByteString, g: Fields, log1: Log,
                  b: ByteString, h: Fields, log2: Log)
    requires Leads(max, f, log, a, g, log1) && Leads(max, g, log1, b, h, log2)
    ensures Leads(max, f, log, a + b, h, log2)
  {
    hide Run;
    RunSplit(max, f, log, a, b);
  }

  const CRLF: ByteString := [CR, LF]

  lemma LeadsLine(max: nat, f: Fields, log: Log, g: Fields, log1: Log, h: Fields, log2: Log)
    requires Step(max, f, log, CR) == Next(g, log1) && Step(max, g, log1, LF) == Next(h, log2)
    ensures Leads(max, f, log, CRLF, h, log2)
  {
    hide Step, Leads;
    LeadsByte(max, f, log, CR, g, log1);
    LeadsByte(max, g, log1, LF, h, log2);
    LeadsThen(max, f, log, [CR], g, log1, [LF], h, log2);
    assert [CR] + [LF] == CRLF;
  }

  // ---- Chunks ---------------------------------------------------------------------------

  // The data of a chunk, the digits that give its length, and its extension.
  datatype Chunk = Chunk(size: ByteString, extension: ByteString, data: ByteString)

  predicate SizeOk(max: nat, size: ByteString, extension: ByteString, n: nat) {
    && size != [] && (forall d <- size :: Unhex(d) != -1)
    && HexNumeral(0, size) == n && n <= MAX_HEX
    && (extension == [] || extension[0] == ';' || extension[0] == ' ')
    && CR !in extension && |size| + |extension| + 2 <= max
  }

  predicate ChunkOk(max: nat, c: Chunk) {
    SizeOk(max, c.size, c.extension, |c.data|) && c.data != []
  }

  function SizeLine(size: ByteString, extension: ByteString): ByteString {
    size + extension + CRLF
  }

  function ChunkText(c: Chunk): ByteString {
    SizeLine(c.size, c.extension) + c.data + CRLF
  }

  function ChunksText(cs: seq<Chunk>): ByteString {
    if cs == [] then [] else ChunkText(cs[0]) + ChunksText(cs[1..])
  }

  function Concatenated(cs: seq<Chunk>): ByteString {
    if cs == [] then [] else cs[0].data + Concatenated(cs[1..])
  }

  function BodyBytes(log: Log): ByteString {
    match log
    case Empty => []
    case Snoc(l, e) => BodyBytes(l) + (if e.Data? && e.kind == BodyData then e.bytes else [])
  }

  function Completions(log: Log): nat {
    match log
    case Empty => 0
    case Snoc(l, e) => Completions(l) + (if e == Notify(MessageComplete) then 1 else 0)
  }

  lemma AppendBytes(l: Log, k: DataKind, b: ByteString)
    ensures BodyBytes(Append(l, k, b)) == BodyBytes(l) + (if k == BodyData then b else [])
    ensures Completions(Append(l, k, b)) == Completions(l)
  {
    if EndsIn(l, k) && k == BodyData {
      assert BodyBytes(l.before) + (l.last.bytes + b) == BodyBytes(l.before) + l.last.bytes + b;
    }
  }

  lemma SizeFirst(max: nat, f: Fields, log: Log, size: ByteString)
    requires f.state.ChunkSizeStart? && f.flags.chunked && f.nread == 0
    requires size != [] && (forall d <- size :: Unhex(d) != -1) && |size| <= max
    requires HexNumeral(0, size) <= MAX_HEX
    ensures Leads(max, f, log, size,
                  f.(state := ChunkSize, nread := |size|, contentLength := HexNumeral(0, size)), log)
  {
    hide Step, Unhex;
    NotCR(size[0]);
    SizeStartStep(max, f, log, size[0]);
    assert HexNumeral(0, size) == HexNumeral(Unhex(size[0]), size[1..]);
    SizeDigits(max, f.(nread := 1, contentLength := Unhex(size[0]), state := ChunkSize), log, size[1..]);
  }

  lemma ExtensionStep(max: nat, f: Fields, log: Log, ch: Byte)
    requires f.flags.chunked && f.nread + 1 <= max && ch != CR
    requires f.state.ChunkParameters? || (f.state.ChunkSize? && (ch == ';' || ch == ' '))
    ensures Step(max, f, log, ch) == Next(f.(nread := f.nread + 1, state := ChunkParameters), log)
  {
    hide Append, ResponseHop, RequestHop, UrlHop, HeaderHop;
  }

  lemma {:induction false} ExtensionRun(max: nat, f: Fields, log: Log, s: ByteString)
    requires f.flags.chunked && f.nread + |s| <= max && CR !in s
    requires f.state.ChunkParameters? || (f.state.ChunkSize? && (s == [] || s[0] == ';' || s[0] == ' '))
    ensures Leads(max, f, log, s,
                  f.(nread := f.nread + |s|, state := if s == [] then f.state else ChunkParameters), log)
    decreases |s|
  {
    hide Step;
    if s != [] {
      ExtensionStep(max, f, log, s[0]);
      ExtensionRun(max, f.(nread := f.nread + 1, state := ChunkParameters), log, s[1..]);
    }
  }

  lemma ParametersEndStep(max: nat, f: Fields, log: Log)
    requires f.state.ChunkParameters? && f.flags.chunked && f.nread + 1 <= max
    ensures Step(max, f, log, CR) == Next(f.(nread := f.nread + 1, state := ChunkSizeAlmostDone), log)
  {
    hide Append, ResponseHop, RequestHop, UrlHop, HeaderHop;
  }

  ghost function AfterSizeLine(f: Fields, n: nat): Fields {
    if n == 0
    then f.(nread := 0, contentLength := 0, flags := f.flags.(trailing := true), state := HeaderFieldStart)
    else f.(nread := 0, contentLength := n, state := ChunkData)
  }

  lemma SizeLineRun(max: nat, f: Fields, log: Log, size: ByteString, extension: ByteString, n: nat)
    requires f.state.ChunkSizeStart? && f.flags.chunked && f.nread == 0 && SizeOk(max, size, extension, n)
    ensures Leads(max, f, log, SizeLine(size, extension), AfterSizeLine(f, n), Snoc(log, Notify(ChunkHeader)))
  {
    hide Step, Leads, Unhex, HexNumeral;
    var g := f.(state := ChunkSize, nread := |size|, contentLength := n);
    SizeFirst(max, f, log, size);
    ExtensionRun(max, g, log, extension);
    var k := |size| + |extension|;
    var h := g.(nread := k, state := if extension == [] then ChunkSize else ChunkParameters);
    LeadsThen(max, f, log, size, g, log, extension, h, log);
    if extension == [] {
      SizeEndStep(max, h, log);
    } else {
      ParametersEndStep(max, h, log);
    }
    var e := h.(nread := k + 1, state := ChunkSizeAlmostDone);
    SizeLineStep(max, e, log);
    var log' := Snoc(log, Notify(ChunkHeader));
    LeadsLine(max, h, log, e, log, AfterSizeLine(f, n), log');
    LeadsThen(max, f, log, size + extension, h, log, CRLF, AfterSizeLine(f, n), log');
  }

  ghost function AfterChunk(log: Log, data: ByteString): Log {
    Snoc(Append(Snoc(log, Notify(ChunkHeader)), BodyData, data), Notify(ChunkComplete))
  }

  lemma ChunkRun(max: nat, f: Fields, log: Log, c: Chunk)
    requires f.state.ChunkSizeStart? && f.flags.chunked && f.nread == 0 && ChunkOk(max, c)
    ensures Leads(max, f, log, ChunkText(c), f.(contentLength := 0), AfterChunk(log, c.data))
  {
    hide Step, Leads, Unhex, HexNumeral, SizeLine;
    SizeLineRun(max, f, log, c.size, c.extension, |c.data|);
    var g, log1 := AfterSizeLine(f, |c.data|), Snoc(log, Notify(ChunkHeader));
    var h, log2 := f.(contentLength := 0, state := ChunkDataAlmostDone), Append(log1, BodyData, c.data);
    DataRun(max, g, log1, c.data);
    LeadsThen(max, f, log, SizeLine(c.size, c.extension), g, log1, c.data, h, log2);
    DataEndStep(max, h, log2);
    ChunkEndStep(max, h.(state := ChunkDataDone), log2);
    LeadsLine(max, h, log2, h.(state := ChunkDataDone), log2, f.(contentLength := 0), AfterChunk(log, c.data));
    LeadsThen(max, f, log, SizeLine(c.size, c.extension) + c.data, h, log2, CRLF,
              f.(contentLength := 0), AfterChunk(log, c.data));
  }

  lemma DataRun(max: nat, f: Fields, log: Log, data: ByteString)
    requires f.state.ChunkData? && f.flags.chunked && f.contentLength == |data| && 0 < |data| < NO_LENGTH
    ensures Leads(max, f, log, data, f.(contentLength := 0, state := ChunkDataAlmostDone),
                  Append(log, BodyData, data))
  {
    hide Step, Append;
    BodyRun(max, f, log, data, |data|);
    assert data[..|data|] == data && data[|data|..] == [];
  }

  ghost function ChunksLog(log: Log, cs: seq<Chunk>): Log
    decreases |cs|
  {
    if cs == [] then log else ChunksLog(AfterChunk(log, cs[0].data), cs[1..])
  }

  lemma {:induction false} ChunksRun(max: nat, f: Fields, log: Log, cs: seq<Chunk>) returns (g: Fields)
    requires f.state.ChunkSizeStart? && f.flags.chunked && f.nread == 0
    requires forall c <- cs :: ChunkOk(max, c)
    ensures Leads(max, f, log, ChunksText(cs), g, ChunksLog(log, cs)) && g == f.(contentLength := g.contentLength)
    decreases |cs|
  {
    hide Leads, ChunkOk, ChunkText, Append, AfterChunk, Run;
    g := f;
    if cs == [] {
      LeadsNothing(max, f, log);
    } else {
      var c := cs[0];
      ChunkRun(max, f, log, c);
      var f1, log1 := f.(contentLength := 0), AfterChunk(log, c.data);
      g := ChunksRun(max, f1, log1, cs[1..]);
      LeadsThen(max, f, log, ChunkText(c), f1, log1, ChunksText(cs[1..]), g, ChunksLog(log, cs));
    }
  }

  // What the callbacks have seen as the body is the concatenation of the chunks.
  lemma {:induction false} ChunksBody(log: Log, cs: seq<Chunk>)
    ensures BodyBytes(ChunksLog(log, cs)) == BodyBytes(log) + Concatenated(cs)
    ensures Completions(ChunksLog(log, cs)) == Completions(log)
    decreases |cs|
  {
    hide BodyBytes, Completions, AfterChunk;
    if cs == [] {
      assert BodyBytes(log) + [] == BodyBytes(log);
    } else {
      var data := cs[0].data;
      ChunkLog(log, data);
      ChunksBody(AfterChunk(log, data), cs[1..]);
      assert BodyBytes(log) + data + Concatenated(cs[1..]) == BodyBytes(log) + (data + Concatenated(cs[1..]));
    }
  }

  lemma ChunkLog(log: Log, data: ByteString)
    ensures BodyBytes(AfterChunk(log, data)) == BodyBytes(log) + data
    ensures Completions(AfterChunk(log, data)) == Completions(log)
  {
    hide Append;
    var l := Snoc(log, Notify(ChunkHeader));
    AppendBytes(l, BodyData, data);
    assert BodyBytes(l) == BodyBytes(log) + [];
  }

  lemma LeadsNothing(max: nat, f: Fields, log: Log)
    ensures Leads(max, f, log, [], f, log)
  {
  }

  // ---- Content-Length ---------------------------------------------------------------------

  // In the digits of a Content-Length value.
  predicate InLength(f: Fields) {
    f.state.HeaderValue? && f.hstate.ContentLengthNum?
  }

  lemma LengthDigitStep(max: nat, f: Fields, log: Log, d: Byte)
    requires InLength(f) && f.nread + 1 <= max && IsNum(d)
    ensures Step(max, f, log, d)
         == if (NO_LENGTH - 10) / 10 < f.contentLength then ByteResult.Error(InvalidContentLength)
            else Next(f.(nread := f.nread + 1, contentLength := f.contentLength * 10 + Digit(d)),
                      Append(log, ValueData, [d]))
  {
    hide Append, ResponseHop, RequestHop, UrlHop, BodyHop, ValueMatch;
  }

  // The digits of a Content-Length are accepted exactly when their numeral is at most
  // MAX_DEC, and then the length is that numeral: nothing wraps, and the sentinel for
  // "no length" is never reached.
  lemma {:induction false} LengthDigits(max: nat, f: Fields, log: Log, ds: ByteString)
    requires InLength(f) && f.nread + |ds| <= max && f.contentLength <= MAX_DEC && EndsIn(log, ValueData)
    requires forall d <- ds :: IsNum(d)
    ensures var v := DecNumeral(f.contentLength, ds);
      if v <= MAX_DEC then
        Leads(max, f, log, ds, f.(nread := f.nread + |ds|, contentLength := v), Append(log, ValueData, ds))
      else Run(max, f, log, ds).Failed? && Run(max, f, log, ds).err == InvalidContentLength
    decreases |ds|
  {
    hide Step, Append;
    if ds == [] {
      AppendNothing(log, ValueData);
    } else {
      LengthDigitStep(max, f, log, ds[0]);
      var v := f.contentLength * 10 + Digit(ds[0]);
      if (NO_LENGTH - 10) / 10 < f.contentLength {
        DecNumeralGrows(v, ds[1..]);
      } else {
        AppendEnds(log, ValueData, [ds[0]]);
        LengthDigits(max, f.(nread := f.nread + 1, contentLength := v), Append(log, ValueData, [ds[0]]), ds[1..]);
        AppendTwice(log, ValueData, [ds[0]], ds[1..]);
        assert [ds[0]] + ds[1..] == ds;
      }
    }
  }

  lemma AppendEnds(l: Log, k: DataKind, b: ByteString)
    ensures EndsIn(Append(l, k, b), k)
  {
  }

  // After the colon of a Content-Length field, in a message that has not had one before.
  predicate AtLength(f: Fields) {
    f.state.HeaderValueDiscardWs? && f.hstate.ContentLength? && !f.flags.contentLength
  }

  lemma LengthStartStep(max: nat, f: Fields, log: Log, d: Byte)
    requires AtLength(f) && f.nread + 1 <= max && IsNum(d)
    ensures Step(max, f, log, d)
         == Next(f.(state := HeaderValue, index := 0, nread := f.nread + 1, hstate := ContentLengthNum,
                    flags := f.flags.(contentLength := true), contentLength := Digit(d)),
                 Append(log, ValueData, [d]))
  {
    hide Append, ResponseHop, RequestHop, UrlHop, BodyHop, ValueStartState, Lower;
    AppendTwice(log, ValueData, [], [d]);
    assert [] + [d] == [d];
  }

  lemma ValueLineStep(max: nat, f: Fields, log: Log)
    requires f.state.HeaderAlmostDone? && f.nread + 1 <= max
    ensures Step(max, f, log, LF) == Next(f.(nread := f.nread + 1, state := HeaderValueLws), log)
  {
    hide Append, ResponseHop, RequestHop, UrlHop, BodyHop;
  }

  lemma IdentityLast(f: Fields, log: Log, ch: Byte)
    requires f.state.BodyIdentity? && f.contentLength == 1 && !f.upgrade
    ensures var g := f.(contentLength := 0, state := MessageDone);
      Chain(f, log, ch) == Next(g.(state := NewMessage(g)), Snoc(Append(log, BodyData, [ch]), Notify(MessageComplete)))
  {
    hide Append, ResponseHop, RequestHop, UrlHop, HeaderHop, NewMessage;
    AppendTwice(log, BodyData, [], [ch]);
    assert [] + [ch] == [ch];
    MessageEnds(f.(contentLength := 0, state := MessageDone), Append(log, BodyData, [ch]), ch);
  }

  // A body of known length n is exactly the next n bytes, and then the message is
  // complete.
  lemma IdentityRun(max: nat, f: Fields, log: Log, data: ByteString)
    requires f.state.BodyIdentity? && f.contentLength == |data| && 0 < |data| < NO_LENGTH && !f.upgrade
    ensures var g := f.(contentLength := 0, state := MessageDone);
      Leads(max, f, log, data, g.(state := NewMessage(g)),
            Snoc(Append(log, BodyData, data), Notify(MessageComplete)))
  {
    hide Chain, Append, Run, NewMessage;
    var n := |data| - 1;
    var last := [data[n]];
    var h, log1 := f.(contentLength := 1), if n == 0 then log else Append(log, BodyData, data[..n]);
    assert Run(max, f, log, data) == Run(max, h, log1, last) by {
      if n > 0 {
        BodyRun(max, f, log, data, n);
        assert data[n..] == last;
      } else {
        assert data == last;
      }
    }
    IdentityLast(h, log1, data[n]);
    var g := h.(contentLength := 0, state := MessageDone);
    LeadsByte(max, h, log1, data[n], g.(state := NewMessage(g)),
              Snoc(Append(log1, BodyData, last), Notify(MessageComplete)));
    if n > 0 {
      AppendTwice(log, BodyData, data[..n], last);
    }
    assert data[..n] + last == data;
  }

  lemma LengthRun(max: nat, f: Fields, log: Log, ds: ByteString, n: nat)
    requires AtLength(f) && f.nread + |ds| <= max
    requires ds != [] && (forall d <- ds :: IsNum(d)) && DecNumeral(0, ds) == n <= MAX_DEC
    ensures Leads(max, f, log, ds, f.(state := HeaderValue, index := 0, nread := f.nread + |ds|,
                                      hstate := ContentLengthNum, flags := f.flags.(contentLength := true),
                                      contentLength := n), Append(log, ValueData, ds))
  {
    hide Step, Append;
    LengthStartStep(max, f, log, ds[0]);
    AppendEnds(log, ValueData, [ds[0]]);
    LengthDigits(max, f.(state := HeaderValue, index := 0, nread := f.nread + 1, hstate := ContentLengthNum,
                         flags := f.flags.(contentLength := true), contentLength := Digit(ds[0])),
                 Append(log, ValueData, [ds[0]]), ds[1..]);
    AppendTwice(log, ValueData, [ds[0]], ds[1..]);
    assert [ds[0]] + ds[1..] == ds;
  }
}
