// The lines of a header block: those that the parser only reports, and those that give the
// length or the coding of the body.
module HttpLines {
  import opened Bytes
  import opened HttpTypes
  import opened HttpHop
  import opened HttpSpec
  import opened HttpFraming
  import opened HttpNames
  import opened HttpSplit
  import T = HttpTokens

  // ---- The start of a line -----------------------------------------------------------------

  // Before the first header line, or after one, when the next byte decides that it is over.
  // The value of a line that ended at the first is reported; that of one that ended at the
  // second was empty and still has to be.
  predicate AtLine(f: Fields) {
    f.state.HeaderFieldStart? || f.state.HeaderValueLws? || (f.state.HeaderValueDiscardLws? && !f.hstate.ContentLength?)
  }

  function LineStart(f: Fields): Fields {
    if f.state.HeaderFieldStart? then f else WithHeaderFlag(f).(state := HeaderFieldStart)
  }

  function LineLog(f: Fields, log: Log): Log {
    if f.state.HeaderValueDiscardLws? then Append(log, ValueData, []) else log
  }

  predicate IsBlank(ch: Byte) { ch == ' ' || ch == '\t' }

  lemma LineChain(f: Fields, log: Log, ch: Byte)
    requires AtLine(f) && !f.state.HeaderFieldStart? && !IsBlank(ch)
    ensures Chain(f, log, ch) == Chain(LineStart(f), LineLog(f, log), ch)
  {
    hide Append, ResponseHop, RequestHop, UrlHop, BodyHop, WithHeaderFlag, ValueStartHop, FieldHop, ValueHop, Token;
  }

  lemma FlagIgnoresCount(f: Fields, n: nat)
    ensures WithHeaderFlag(f.(nread := n)) == WithHeaderFlag(f).(nread := n)
    ensures WithHeaderFlag(f).(flags := f.flags) == f
  {
  }

  // A byte that does not continue the line before it begins a new one.
  lemma LineOver(max: nat, f: Fields, log: Log, ch: Byte)
    requires AtLine(f) && !IsBlank(ch)
    ensures Step(max, f, log, ch) == Step(max, LineStart(f), LineLog(f, log), ch)
  {
    hide Chain, Append, WithHeaderFlag;
    FlagIgnoresCount(f, f.nread + 1);
    if !f.state.HeaderFieldStart? {
      LineChain(f.(nread := f.nread + 1), log, ch);
    }
  }

  lemma LineOverRun(max: nat, f: Fields, log: Log, s: ByteString)
    requires AtLine(f) && s != [] && !IsBlank(s[0])
    ensures Run(max, f, log, s) == Run(max, LineStart(f), LineLog(f, log), s)
  {
    hide Step, LineStart, LineLog;
    LineOver(max, f, log, s[0]);
  }

  // ---- From the name to the value ------------------------------------------------------------

  predicate NameOk(name: ByteString) {
    name != [] && forall ch <- name :: Token(ch) != '\0'
  }

  // A line break that a blank follows does not end the line.
  predicate FoldsAt(s: ByteString) { |s| >= 3 && s[0] == CR && s[1] == LF && IsBlank(s[2]) }

  // What can stand between the colon and the value.
  predicate PadOk(s: ByteString) {
    s == [] || (IsBlank(s[0]) && PadOk(s[1..])) || (FoldsAt(s) && PadOk(s[3..]))
  }

  lemma TokenIs(ch: Byte)
    requires Token(ch) != '\0'
    ensures !IsBlank(ch) && ch != CR && ch != LF
  {
  }

  lemma ColonStep(max: nat, f: Fields, log: Log)
    requires f.state.HeaderField? && f.nread + 1 <= max
    ensures Step(max, f, log, ':') == Next(f.(nread := f.nread + 1, state := HeaderValueDiscardWs), log)
  {
    hide Append, ResponseHop, RequestHop, UrlHop, BodyHop, FieldNext, Lower;
  }

  lemma BlankStep(max: nat, f: Fields, log: Log, ch: Byte)
    requires f.state.HeaderValueDiscardWs? && f.nread + 1 <= max && IsBlank(ch)
    ensures Step(max, f, log, ch) == Next(f.(nread := f.nread + 1), log)
  {
    hide Append, ResponseHop, RequestHop, UrlHop, BodyHop, ValueStartHop;
  }

  lemma BreakStep(max: nat, f: Fields, log: Log)
    requires f.state.HeaderValueDiscardWs? && f.nread + 1 <= max
    ensures Step(max, f, log, CR) == Next(f.(nread := f.nread + 1, state := HeaderValueDiscardWsAlmostDone), log)
  {
    hide Append, ResponseHop, RequestHop, UrlHop, BodyHop, ValueStartHop;
  }

  lemma BrokenStep(max: nat, f: Fields, log: Log)
    requires f.state.HeaderValueDiscardWsAlmostDone? && f.nread + 1 <= max
    ensures Step(max, f, log, LF) == Next(f.(nread := f.nread + 1, state := HeaderValueDiscardLws), log)
  {
    hide Append, ResponseHop, RequestHop, UrlHop, BodyHop;
  }

  // The end of a line that has had no value yet.
  lemma BreakRun(max: nat, f: Fields, log: Log)
    requires f.state.HeaderValueDiscardWs? && f.nread + 2 <= max
    ensures Leads(max, f, log, CRLF, f.(nread := f.nread + 2, state := HeaderValueDiscardLws), log)
  {
    hide Step, Leads;
    var g := f.(nread := f.nread + 1, state := HeaderValueDiscardWsAlmostDone);
    BreakStep(max, f, log);
    BrokenStep(max, g, log);
    LeadsLine(max, f, log, g, log, f.(nread := f.nread + 2, state := HeaderValueDiscardLws), log);
  }

  lemma MendStep(max: nat, f: Fields, log: Log, ch: Byte)
    requires f.state.HeaderValueDiscardLws? && f.nread + 1 <= max && IsBlank(ch)
    ensures Step(max, f, log, ch) == Next(f.(nread := f.nread + 1, state := HeaderValueDiscardWs), log)
  {
    hide Append, ResponseHop, RequestHop, UrlHop, BodyHop, WithHeaderFlag;
  }

  lemma {:induction false} PadRun(max: nat, f: Fields, log: Log, s: ByteString)
    requires f.state.HeaderValueDiscardWs? && f.nread + |s| <= max && PadOk(s)
    ensures Leads(max, f, log, s, f.(nread := f.nread + |s|), log)
    decreases |s|
  {
    hide Step, IsBlank, Leads;
    if s == [] {
      LeadsNothing(max, f, log);
    } else if IsBlank(s[0]) && PadOk(s[1..]) {
      var g := f.(nread := f.nread + 1);
      BlankStep(max, f, log, s[0]);
      LeadsByte(max, f, log, s[0], g, log);
      PadRun(max, g, log, s[1..]);
      LeadsThen(max, f, log, [s[0]], g, log, s[1..], f.(nread := f.nread + |s|), log);
      assert [s[0]] + s[1..] == s;
    } else {
      var g, h := f.(nread := f.nread + 2, state := HeaderValueDiscardLws), f.(nread := f.nread + 3);
      BreakRun(max, f, log);
      MendStep(max, g, log, s[2]);
      LeadsByte(max, g, log, s[2], h, log);
      LeadsThen(max, f, log, CRLF, g, log, [s[2]], h, log);
      PadRun(max, h, log, s[3..]);
      LeadsThen(max, f, log, CRLF + [s[2]], h, log, s[3..], f.(nread := f.nread + |s|), log);
      assert CRLF + [s[2]] + s[3..] == s;
    }
  }

  function Before(name: ByteString, pad: ByteString): ByteString { name + [':'] + pad }

  // The name, the colon and what is skipped after it.
  lemma BeforeRun(max: nat, f: Fields, log: Log, name: ByteString, pad: ByteString) returns (g: Fields)
    requires AtLine(f) && NameOk(name) && PadOk(pad) && f.nread + |Before(name, pad)| <= max
    ensures Leads(max, f, log, Before(name, pad), g, Append(LineLog(f, log), FieldData, name))
    ensures g == LineStart(f).(state := HeaderValueDiscardWs, nread := f.nread + |Before(name, pad)|,
                               hstate := g.hstate, index := g.index)
    ensures Tracks(g.hstate, g.index, Lowered(name))
  {
    hide Step, Leads, Append, Tracks, Lowered, Token, WithHeaderFlag, PadOk, IsBlank, CONTENT_LENGTH,
      TRANSFER_ENCODING, UPGRADE, CONNECTION, PROXY_CONNECTION, LineLog;
    FlagIgnoresCount(f, f.nread);
    var s, l0 := LineStart(f), LineLog(f, log);
    var log' := Append(l0, FieldData, name);
    HeaderRecognised(max, s, l0, name);
    var h := Run(max, s, l0, name).f;
    RunLeads(max, s, l0, name, h, log');
    ColonStep(max, h, log');
    var c := h.(nread := h.nread + 1, state := HeaderValueDiscardWs);
    LeadsByte(max, h, log', ':', c, log');
    LeadsThen(max, s, l0, name, h, log', [':'], c, log');
    PadRun(max, c, log', pad);
    g := c.(nread := c.nread + |pad|);
    LeadsThen(max, s, l0, name + [':'], c, log', pad, g, log');
    TokenIs(name[0]);
    assert Before(name, pad)[0] == name[0];
    LineOverRun(max, f, log, Before(name, pad));
    SameRun(max, s, l0, f, log, Before(name, pad), g, log');
  }

  lemma SameRun(max: nat, f: Fields, log: Log, g: Fields, log1: Log, s: ByteString, h: Fields, log2: Log)
    requires Run(max, f, log, s) == Run(max, g, log1, s) && Leads(max, f, log, s, h, log2)
    ensures Leads(max, g, log1, s, h, log2)
  {
  }

  lemma RunLeads(max: nat, f: Fields, log: Log, s: ByteString, g: Fields, log': Log)
    requires Run(max, f, log, s) == Consumed(g, log')
    ensures Leads(max, f, log, s, g, log')
  {
  }

  // ---- Lines that are only reported -----------------------------------------------------------

  // A name that the parser does not act on, what is skipped, and a value.
  datatype Line = Line(name: ByteString, pad: ByteString, value: ByteString)

  predicate Special(name: ByteString) {
    var w := Lowered(name);
    w == CONNECTION || w == PROXY_CONNECTION || w == CONTENT_LENGTH || w == TRANSFER_ENCODING || w == UPGRADE
  }

  predicate InValue(ch: Byte) { ch != CR && ch != LF && IsHeaderChar(ch) }

  predicate RestOk(s: ByteString) {
    s == [] || (InValue(s[0]) && RestOk(s[1..])) || (FoldsAt(s) && RestOk(s[3..]))
  }

  // A value may be empty, and it may go on over several lines.
  predicate ValueOk(value: ByteString) {
    value == [] || (!IsBlank(value[0]) && InValue(value[0]) && RestOk(value[1..]))
  }

  // What is reported of it: all but the line breaks.
  function Unfolded(s: ByteString): ByteString {
    if s == [] then [] else if FoldsAt(s) then [s[2]] + Unfolded(s[3..]) else [s[0]] + Unfolded(s[1..])
  }

  predicate LineOk(l: Line) {
    NameOk(l.name) && !Special(l.name) && PadOk(l.pad) && ValueOk(l.value)
  }

  function LineText(l: Line): ByteString { Before(l.name, l.pad) + l.value + CRLF }

  predicate Unfinished(h: HeaderState) {
    h.General? || h.C? || h.CO? || h.CON? || h.MatchingConnection? || h.MatchingProxyConnection?
    || h.MatchingContentLength? || h.MatchingTransferEncoding? || h.MatchingUpgrade?
  }

  lemma TracksPlain(h: HeaderState, i: nat, name: ByteString)
    requires Tracks(h, i, Lowered(name)) && !Special(name)
    ensures Unfinished(h)
  {
    hide Lowered, CONTENT_LENGTH, TRANSFER_ENCODING, UPGRADE, CONNECTION, PROXY_CONNECTION;
    TracksWhole(h, i, Lowered(name));
  }

  lemma ValueFirstStep(max: nat, f: Fields, log: Log, ch: Byte)
    requires f.state.HeaderValueDiscardWs? && Unfinished(f.hstate) && f.nread + 1 <= max
    requires !IsBlank(ch) && ch != CR && ch != LF
    ensures Step(max, f, log, ch)
         == Next(f.(nread := f.nread + 1, state := HeaderValue, hstate := General, index := 0),
                 Append(log, ValueData, [ch]))
  {
    hide Append, ResponseHop, RequestHop, UrlHop, BodyHop, Lower;
    AppendTwice(log, ValueData, [], [ch]);
    assert [] + [ch] == [ch];
  }

  lemma ValueStep(max: nat, f: Fields, log: Log, ch: Byte)
    requires f.state.HeaderValue? && f.hstate.General? && f.nread + 1 <= max
    requires InValue(ch)
    ensures Step(max, f, log, ch) == Next(f.(nread := f.nread + 1), Append(log, ValueData, [ch]))
  {
    hide Append, ResponseHop, RequestHop, UrlHop, BodyHop, Lower, IsHeaderChar;
  }

  lemma ValueEndStep(max: nat, f: Fields, log: Log)
    requires f.state.HeaderValue? && f.nread + 1 <= max
    ensures Step(max, f, log, CR) == Next(f.(nread := f.nread + 1, state := HeaderAlmostDone), log)
  {
    hide Append, ResponseHop, RequestHop, UrlHop, BodyHop, ValueNext;
  }

  lemma ValueEndRun(max: nat, f: Fields, log: Log)
    requires f.state.HeaderValue? && f.nread + 2 <= max
    ensures Leads(max, f, log, CRLF, f.(nread := f.nread + 2, state := HeaderValueLws), log)
  {
    hide Step, Leads;
    var g := f.(nread := f.nread + 1, state := HeaderAlmostDone);
    ValueEndStep(max, f, log);
    ValueLineStep(max, g, log);
    LeadsLine(max, f, log, g, log, f.(nread := f.nread + 2, state := HeaderValueLws), log);
  }

  lemma FoldStep(max: nat, f: Fields, log: Log, ch: Byte)
    requires f.state.HeaderValueLws? && f.hstate.General? && f.nread + 1 <= max && IsBlank(ch)
    ensures Step(max, f, log, ch)
         == Next(f.(nread := f.nread + 1, state := HeaderValue, index := 0), Append(log, ValueData, [ch]))
  {
    hide Chain, Append;
    var g := f.(nread := f.nread + 1);
    FoldChain(g, log, ch);
    FoldBegins(g.(state := HeaderValueStart), log, ch);
  }

  lemma FoldChain(f: Fields, log: Log, ch: Byte)
    requires f.state.HeaderValueLws? && f.hstate.General? && IsBlank(ch)
    ensures Chain(f, log, ch) == Chain(f.(state := HeaderValueStart), log, ch)
  {
    hide Append, ResponseHop, RequestHop, UrlHop, BodyHop, FieldHop, ValueHop, WithHeaderFlag, ValueStartHop;
  }

  lemma FoldBegins(f: Fields, log: Log, ch: Byte)
    requires f.state.HeaderValueStart? && f.hstate.General?
    ensures Chain(f, log, ch) == Next(f.(state := HeaderValue, index := 0), Append(log, ValueData, [ch]))
  {
    hide Append, ResponseHop, RequestHop, UrlHop, BodyHop, Lower, FieldHop, ValueHop, WithHeaderFlag;
    AppendTwice(log, ValueData, [], [ch]);
    assert [] + [ch] == [ch];
  }

  lemma FoldRun(max: nat, f: Fields, log: Log, ch: Byte)
    requires f.state.HeaderValue? && f.hstate.General? && f.index == 0 && f.nread + 3 <= max && IsBlank(ch)
    ensures Leads(max, f, log, CRLF + [ch], f.(nread := f.nread + 3), Append(log, ValueData, [ch]))
  {
    hide Step, Leads, Append;
    var g := f.(nread := f.nread + 2, state := HeaderValueLws);
    ValueEndRun(max, f, log);
    FoldStep(max, g, log, ch);
    LeadsByte(max, g, log, ch, f.(nread := f.nread + 3), Append(log, ValueData, [ch]));
    LeadsThen(max, f, log, CRLF, g, log, [ch], f.(nread := f.nread + 3), Append(log, ValueData, [ch]));
  }

  lemma {:induction false} ValueRest(max: nat, f: Fields, log: Log, s: ByteString)
    requires f.state.HeaderValue? && f.hstate.General? && f.index == 0 && f.nread + |s| <= max
    requires EndsIn(log, ValueData) && RestOk(s)
    ensures Leads(max, f, log, s, f.(nread := f.nread + |s|), Append(log, ValueData, Unfolded(s)))
    decreases |s|
  {
    hide Step, Append, Leads, IsHeaderChar, IsBlank;
    if s == [] {
      LeadsNothing(max, f, log);
      AppendNothing(log, ValueData);
    } else if InValue(s[0]) && RestOk(s[1..]) {
      var g, log1 := f.(nread := f.nread + 1), Append(log, ValueData, [s[0]]);
      ValueStep(max, f, log, s[0]);
      LeadsByte(max, f, log, s[0], g, log1);
      AppendEnds(log, ValueData, [s[0]]);
      ValueRest(max, g, log1, s[1..]);
      AppendTwice(log, ValueData, [s[0]], Unfolded(s[1..]));
      LeadsThen(max, f, log, [s[0]], g, log1, s[1..], f.(nread := f.nread + |s|), Append(log, ValueData, Unfolded(s)));
      assert [s[0]] + s[1..] == s;
    } else {
      var g, log1 := f.(nread := f.nread + 3), Append(log, ValueData, [s[2]]);
      FoldRun(max, f, log, s[2]);
      AppendEnds(log, ValueData, [s[2]]);
      ValueRest(max, g, log1, s[3..]);
      AppendTwice(log, ValueData, [s[2]], Unfolded(s[3..]));
      LeadsThen(max, f, log, CRLF + [s[2]], g, log1, s[3..], f.(nread := f.nread + |s|),
                Append(log, ValueData, Unfolded(s)));
      assert CRLF + [s[2]] + s[3..] == s;
    }
  }

  lemma ValueRun(max: nat, f: Fields, log: Log, value: ByteString)
    requires f.state.HeaderValueDiscardWs? && Unfinished(f.hstate) && f.nread + |value| <= max
    requires ValueOk(value) && value != []
    ensures Leads(max, f, log, value,
                  f.(nread := f.nread + |value|, state := HeaderValue, hstate := General, index := 0),
                  Append(log, ValueData, Unfolded(value)))
  {
    hide Step, Append, Leads, Unfinished, IsHeaderChar, IsBlank, RestOk;
    var ch, log1 := value[0], Append(log, ValueData, [value[0]]);
    var g := f.(nread := f.nread + 1, state := HeaderValue, hstate := General, index := 0);
    ValueFirstStep(max, f, log, ch);
    LeadsByte(max, f, log, ch, g, log1);
    AppendEnds(log, ValueData, [ch]);
    ValueRest(max, g, log1, value[1..]);
    AppendTwice(log, ValueData, [ch], Unfolded(value[1..]));
    LeadsThen(max, f, log, [ch], g, log1, value[1..], g.(nread := f.nread + |value|),
              Append(log, ValueData, Unfolded(value)));
    assert [ch] + value[1..] == value;
  }

  // What a line of a header block comes to: log2 is what the callbacks have seen when it is
  // over.
  ghost predicate LineDone(max: nat, f: Fields, log: Log, text: ByteString, g: Fields, log1: Log, log2: Log) {
    Leads(max, f, log, text, g, log1) && AtLine(g) && g.nread == f.nread + |text| && LineLog(g, log1) == log2
  }

  // Only the recogniser's state can differ when the next line begins.
  predicate SameBut(f: Fields, g: Fields) {
    LineStart(g) == LineStart(f).(nread := g.nread, hstate := g.hstate, index := g.index)
  }

  lemma LineRun(max: nat, f: Fields, log: Log, l: Line) returns (g: Fields, log1: Log)
    requires AtLine(f) && LineOk(l) && f.nread + |LineText(l)| <= max
    ensures LineDone(max, f, log, LineText(l), g, log1, LinePair(LineLog(f, log), l.name, Unfolded(l.value)))
    ensures SameBut(f, g)
  {
    hide Leads, Append, Tracks, NameOk, Special, PadOk, ValueOk, Before, LineStart, Lowered, Unfolded;
    var b, logB := Before(l.name, l.pad), Append(LineLog(f, log), FieldData, l.name);
    var c := BeforeRun(max, f, log, l.name, l.pad);
    TracksPlain(c.hstate, c.index, l.name);
    if l.value == [] {
      g, log1 := c.(nread := c.nread + 2, state := HeaderValueDiscardLws), logB;
      BreakRun(max, c, logB);
      LeadsThen(max, f, log, b, c, logB, CRLF, g, logB);
      assert b + l.value + CRLF == b + CRLF;
      UnfoldedNothing();
    } else {
      log1 := Append(logB, ValueData, Unfolded(l.value));
      ValueRun(max, c, logB, l.value);
      var h := c.(nread := c.nread + |l.value|, state := HeaderValue, hstate := General, index := 0);
      LeadsThen(max, f, log, b, c, logB, l.value, h, log1);
      ValueEndRun(max, h, log1);
      g := h.(nread := h.nread + 2, state := HeaderValueLws);
      LeadsThen(max, f, log, b + l.value, h, log1, CRLF, g, log1);
    }
    PlainLineStart(g);
    StartsThere(f);
  }

  lemma UnfoldedNothing()
    ensures Unfolded([]) == []
  {
  }

  lemma PlainLineStart(g: Fields)
    requires Unfinished(g.hstate) && !g.state.HeaderFieldStart?
    ensures LineStart(g) == g.(state := HeaderFieldStart)
  {
  }

  lemma StartsThere(f: Fields)
    requires AtLine(f)
    ensures LineStart(f).state == HeaderFieldStart && LineStart(f).nread == f.nread && LineStart(f).upgrade == f.upgrade
  {
  }

  function LinePair(log: Log, name: ByteString, value: ByteString): Log {
    Append(Append(log, FieldData, name), ValueData, value)
  }

  // ---- The line that gives the length ---------------------------------------------------------

  predicate SpacesOnly(s: ByteString) { forall i :: 0 <= i < |s| ==> s[i] == ' ' }

  // Digits and the spaces after them.
  predicate LengthOk(digits: ByteString, spaces: ByteString, n: nat) {
    && digits != [] && (forall d <- digits :: IsNum(d)) && DecNumeral(0, digits) == n <= MAX_DEC
    && SpacesOnly(spaces)
  }

  lemma SpaceStep(max: nat, f: Fields, log: Log)
    requires f.state.HeaderValue? && f.nread + 1 <= max
    requires f.hstate.ContentLengthNum? || f.hstate.ContentLengthWs? || f.hstate.TransferEncodingChunked?
    ensures var h := if f.hstate.ContentLengthNum? then ContentLengthWs else f.hstate;
      Step(max, f, log, ' ') == Next(f.(nread := f.nread + 1, hstate := h), Append(log, ValueData, [' ']))
  {
    hide Append, ResponseHop, RequestHop, UrlHop, BodyHop, Lower;
  }

  lemma {:induction false} SpacesRun(max: nat, f: Fields, log: Log, s: ByteString) returns (h: HeaderState)
    requires f.state.HeaderValue? && f.nread + |s| <= max && EndsIn(log, ValueData) && SpacesOnly(s)
    requires f.hstate.ContentLengthNum? || f.hstate.ContentLengthWs? || f.hstate.TransferEncodingChunked?
    ensures Leads(max, f, log, s, f.(nread := f.nread + |s|, hstate := h), Append(log, ValueData, s))
    ensures h.TransferEncodingChunked? <==> f.hstate.TransferEncodingChunked?
    ensures f.hstate.ContentLengthWs? ==> h.ContentLengthWs?
    ensures h.ContentLengthNum? || h.ContentLengthWs? || h.TransferEncodingChunked?
    decreases |s|
  {
    hide Step, Append;
    h := f.hstate;
    if s == [] {
      AppendNothing(log, ValueData);
    } else {
      SpaceStep(max, f, log);
      AppendEnds(log, ValueData, [' ']);
      var h1 := if h.ContentLengthNum? then ContentLengthWs else h;
      h := SpacesRun(max, f.(nread := f.nread + 1, hstate := h1), Append(log, ValueData, [' ']), s[1..]);
      AppendTwice(log, ValueData, [' '], s[1..]);
      assert [s[0]] + s[1..] == s;
    }
  }

  datatype LengthLine = LengthLine(name: ByteString, pad: ByteString, digits: ByteString, spaces: ByteString)

  predicate LengthLineOk(l: LengthLine, n: nat) {
    NameOk(l.name) && Lowered(l.name) == CONTENT_LENGTH && PadOk(l.pad) && LengthOk(l.digits, l.spaces, n)
  }

  function LengthText(l: LengthLine): ByteString { Before(l.name, l.pad) + l.digits + l.spaces + CRLF }

  lemma LengthValueRun(max: nat, f: Fields, log: Log, digits: ByteString, spaces: ByteString, n: nat)
    returns (g: Fields)
    requires AtLength(f) && f.nread + |digits| + |spaces| <= max && LengthOk(digits, spaces, n)
    ensures Leads(max, f, log, digits + spaces, g, Append(log, ValueData, digits + spaces))
    ensures g == f.(state := HeaderValue, index := 0, nread := f.nread + |digits| + |spaces|, hstate := g.hstate,
                    flags := f.flags.(contentLength := true), contentLength := n)
    ensures g.hstate.ContentLengthNum? || g.hstate.ContentLengthWs?
  {
    hide Leads, Append, AtLength, DecNumeral;
    LengthRun(max, f, log, digits, n);
    var c := f.(state := HeaderValue, index := 0, nread := f.nread + |digits|, hstate := ContentLengthNum,
                flags := f.flags.(contentLength := true), contentLength := n);
    AppendEnds(log, ValueData, digits);
    var h := SpacesRun(max, c, Append(log, ValueData, digits), spaces);
    g := c.(nread := c.nread + |spaces|, hstate := h);
    AppendTwice(log, ValueData, digits, spaces);
    LeadsThen(max, f, log, digits, c, Append(log, ValueData, digits), spaces, g,
              Append(log, ValueData, digits + spaces));
  }

  // The next line begins with the fields of this one but for the length.
  lemma LengthLineRun(max: nat, f: Fields, log: Log, l: LengthLine, n: nat) returns (g: Fields, log1: Log)
    requires AtLine(f) && !LineStart(f).flags.contentLength && LengthLineOk(l, n) && f.nread + |LengthText(l)| <= max
    ensures LineDone(max, f, log, LengthText(l), g, log1, LinePair(LineLog(f, log), l.name, l.digits + l.spaces))
    ensures LineStart(g) == LineStart(f).(nread := g.nread, hstate := g.hstate, index := g.index, contentLength := n,
                                          flags := LineStart(f).flags.(contentLength := true))
  {
    hide Leads, Append, Tracks, NameOk, PadOk, LengthOk, Before, LineStart, Lowered;
    var b, v, logB := Before(l.name, l.pad), l.digits + l.spaces, Append(LineLog(f, log), FieldData, l.name);
    log1 := Append(logB, ValueData, v);
    var c := BeforeRun(max, f, log, l.name, l.pad);
    TracksWhole(c.hstate, c.index, Lowered(l.name));
    var d := LengthValueRun(max, c, logB, l.digits, l.spaces, n);
    LeadsThen(max, f, log, b, c, logB, v, d, log1);
    ValueEndRun(max, d, log1);
    g := d.(nread := d.nread + 2, state := HeaderValueLws);
    LeadsThen(max, f, log, b + v, d, log1, CRLF, g, log1);
    assert b + v + CRLF == LengthText(l);
    NoFlagLine(g);
    StartsThere(f);
  }

  lemma NoFlagLine(g: Fields)
    requires g.state.HeaderValueLws? && (g.hstate.ContentLengthNum? || g.hstate.ContentLengthWs?)
    ensures LineStart(g) == g.(state := HeaderFieldStart)
  {
  }

  // A line that continues a length begins behind it.
  lemma FoldedLength(max: nat, f: Fields, log: Log, ch: Byte)
    requires f.state.HeaderValueLws? && f.hstate.ContentLengthNum? && f.nread + 1 <= max && IsBlank(ch)
    ensures Step(max, f, log, ch)
         == Next(f.(nread := f.nread + 1, state := HeaderValue, hstate := ContentLengthWs, index := 0),
                 Append(log, ValueData, [ch]))
  {
    hide Chain, Append;
    var g := f.(nread := f.nread + 1);
    FoldedChain(g, log, ch);
    FoldedBegins(g.(state := HeaderValueStart, hstate := ContentLengthWs), log, ch);
  }

  lemma FoldedChain(f: Fields, log: Log, ch: Byte)
    requires f.state.HeaderValueLws? && f.hstate.ContentLengthNum? && IsBlank(ch)
    ensures Chain(f, log, ch) == Chain(f.(state := HeaderValueStart, hstate := ContentLengthWs), log, ch)
  {
    hide Append, ResponseHop, RequestHop, UrlHop, BodyHop, FieldHop, ValueHop, WithHeaderFlag, ValueStartHop;
  }

  lemma FoldedBegins(f: Fields, log: Log, ch: Byte)
    requires f.state.HeaderValueStart? && f.hstate.ContentLengthWs?
    ensures Chain(f, log, ch) == Next(f.(state := HeaderValue, index := 0), Append(log, ValueData, [ch]))
  {
    hide Append, ResponseHop, RequestHop, UrlHop, BodyHop, Lower, FieldHop, ValueHop, WithHeaderFlag;
    AppendTwice(log, ValueData, [], [ch]);
    assert [] + [ch] == [ch];
  }

  lemma LengthOverStep(max: nat, f: Fields, log: Log, ch: Byte)
    requires f.state.HeaderValue? && f.hstate.ContentLengthWs? && f.nread + 1 <= max
    requires InValue(ch) && ch != ' '
    ensures Step(max, f, log, ch) == ByteResult.Error(InvalidContentLength)
  {
    hide Append, ResponseHop, RequestHop, UrlHop, BodyHop, Lower, ValueMatch;
  }

  // Behind spaces, or in a line that continues it, a length has no more digits.
  lemma LengthOver(max: nat, f: Fields, log: Log, s: ByteString, ch: Byte, rest: ByteString)
    requires f.state.HeaderValue? && f.hstate.ContentLengthWs? && f.nread + |s| + 1 <= max && EndsIn(log, ValueData)
    requires SpacesOnly(s) && InValue(ch) && ch != ' '
    ensures var r := Run(max, f, log, s + [ch] + rest); r.Failed? && r.err == InvalidContentLength
  {
    hide Leads, Append, Step, InValue;
    var h := SpacesRun(max, f, log, s);
    var g, log1 := f.(nread := f.nread + |s|, hstate := h), Append(log, ValueData, s);
    LengthOverStep(max, g, log1, ch);
    LeadsInto(max, f, log, s, g, log1, [ch] + rest);
    assert ([ch] + rest)[0] == ch;
    assert s + ([ch] + rest) == s + [ch] + rest;
  }

  lemma LengthAgainStep(max: nat, f: Fields, log: Log, d: Byte)
    requires f.state.HeaderValueDiscardWs? && f.hstate.ContentLength? && f.flags.contentLength && f.nread + 1 <= max
    requires IsNum(d)
    ensures Step(max, f, log, d) == ByteResult.Error(UnexpectedContentLength)
  {
    hide Append, ResponseHop, RequestHop, UrlHop, BodyHop, ValueStartState, Lower;
  }

  // A second length is refused at its first digit.
  lemma LengthAgain(max: nat, f: Fields, log: Log, l: LengthLine, n: nat, rest: ByteString)
    requires AtLine(f) && LineStart(f).flags.contentLength && LengthLineOk(l, n) && f.nread + |LengthText(l)| <= max
    ensures var r := Run(max, f, log, LengthText(l) + rest); r.Failed? && r.err == UnexpectedContentLength
  {
    hide Leads, Append, Tracks, NameOk, PadOk, Before, LineStart, Lowered, Step, DecNumeral;
    var b, s := Before(l.name, l.pad), l.digits + l.spaces + CRLF + rest;
    var c := BeforeRun(max, f, log, l.name, l.pad);
    TracksWhole(c.hstate, c.index, Lowered(l.name));
    var logB := Append(LineLog(f, log), FieldData, l.name);
    LengthAgainStep(max, c, logB, l.digits[0]);
    assert s[0] == l.digits[0];
    assert LengthText(l) + rest == b + s;
    LeadsInto(max, f, log, b, c, logB, s);
  }

  lemma LeadsInto(max: nat, f: Fields, log: Log, a: ByteString, g: Fields, log1: Log, s: ByteString)
    requires Leads(max, f, log, a, g, log1)
    ensures match Run(max, g, log1, s) case Failed(e, n) => Run(max, f, log, a + s) == Failed(e, n)
            case r => Run(max, f, log, a + s) == r
  {
    hide Run;
    RunSplit(max, f, log, a, s);
  }

  // ---- The line that gives the coding ---------------------------------------------------------

  // chunked, in any case.
  predicate CodingOk(coding: ByteString, k: nat) {
    |coding| == 7 && forall i {:trigger coding[i]} :: k <= i < 7 ==> Lower(coding[i]) == CHUNKED[i]
  }

  lemma CodingFirstStep(max: nat, f: Fields, log: Log, ch: Byte)
    requires f.state.HeaderValueDiscardWs? && f.hstate.TransferEncoding? && f.nread + 1 <= max && Lower(ch) == 'c'
    ensures Step(max, f, log, ch)
         == Next(f.(nread := f.nread + 1, state := HeaderValue, hstate := MatchingTransferEncodingChunked, index := 0),
                 Append(log, ValueData, [ch]))
  {
    hide Append, ResponseHop, RequestHop, UrlHop, BodyHop;
    AppendTwice(log, ValueData, [], [ch]);
    assert [] + [ch] == [ch];
  }

  lemma CodingStep(max: nat, f: Fields, log: Log, ch: Byte)
    requires f.state.HeaderValue? && f.hstate.MatchingTransferEncodingChunked? && f.nread + 1 <= max && f.index < 6
    requires Lower(ch) == CHUNKED[f.index + 1]
    ensures Step(max, f, log, ch)
         == Next(f.(nread := f.nread + 1, index := f.index + 1,
                    hstate := if f.index == 5 then TransferEncodingChunked else f.hstate), Append(log, ValueData, [ch]))
  {
    hide Append, ResponseHop, RequestHop, UrlHop, BodyHop, Lower, CHUNKED, ValueNext, IsHeaderChar;
    ChunkedLetters(f.index + 1);
    LetterIs(ch, CHUNKED[f.index + 1]);
    CodingNext(f, ch);
    CodingNext(f.(nread := f.nread + 1), ch);
  }

  lemma CodingNext(f: Fields, ch: Byte)
    requires f.hstate.MatchingTransferEncodingChunked? && f.index < 6 && Lower(ch) == CHUNKED[f.index + 1]
    requires IsHeaderChar(ch)
    ensures ValueNext(f, ch)
         == Good(f.(index := f.index + 1, hstate := if f.index == 5 then TransferEncodingChunked else f.hstate))
  {
    hide Lower, IsHeaderChar;
  }

  lemma ChunkedLetters(i: nat)
    ensures |CHUNKED| == 7 && (i < 7 ==> 'a' <= CHUNKED[i] <= 'z')
  {
  }

  lemma LetterIs(ch: Byte, c: Byte)
    requires Lower(ch) == c && 'a' <= c <= 'z'
    ensures IsHeaderChar(ch) && ch != CR && ch != LF
  {
  }

  lemma {:induction false} CodingRest(max: nat, f: Fields, log: Log, coding: ByteString, k: nat)
    requires f.state.HeaderValue? && f.nread + 7 - k <= max && EndsIn(log, ValueData) && CodingOk(coding, k)
    requires 1 <= k <= 7 && f.index == k - 1
    requires f.hstate == if k == 7 then TransferEncodingChunked else MatchingTransferEncodingChunked
    ensures Leads(max, f, log, coding[k..], f.(nread := f.nread + 7 - k, index := 6, hstate := TransferEncodingChunked),
                  Append(log, ValueData, coding[k..]))
    decreases 7 - k
  {
    hide Step, Append, Lower, CHUNKED;
    if k == 7 {
      AppendNothing(log, ValueData);
    } else {
      var ch := coding[k];
      CodingStep(max, f, log, ch);
      AppendEnds(log, ValueData, [ch]);
      var g := f.(nread := f.nread + 1, index := k, hstate := if k == 6 then TransferEncodingChunked else f.hstate);
      CodingRest(max, g, Append(log, ValueData, [ch]), coding, k + 1);
      AppendTwice(log, ValueData, [ch], coding[k + 1..]);
      assert coding[k..][0] == ch && coding[k..][1..] == coding[k + 1..];
      assert [ch] + coding[k + 1..] == coding[k..];
    }
  }

  lemma CodingRun(max: nat, f: Fields, log: Log, coding: ByteString)
    requires f.state.HeaderValueDiscardWs? && f.hstate.TransferEncoding? && f.nread + 7 <= max && CodingOk(coding, 0)
    ensures Leads(max, f, log, coding,
                  f.(nread := f.nread + 7, state := HeaderValue, index := 6, hstate := TransferEncodingChunked),
                  Append(log, ValueData, coding))
  {
    hide Step, Append, Lower;
    var ch := coding[0];
    CodingFirstStep(max, f, log, ch);
    AppendEnds(log, ValueData, [ch]);
    var g := f.(nread := f.nread + 1, state := HeaderValue, hstate := MatchingTransferEncodingChunked, index := 0);
    CodingRest(max, g, Append(log, ValueData, [ch]), coding, 1);
    AppendTwice(log, ValueData, [ch], coding[1..]);
    assert [ch] + coding[1..] == coding;
  }

  datatype CodingLine = CodingLine(name: ByteString, pad: ByteString, coding: ByteString, spaces: ByteString)

  predicate CodingLineOk(l: CodingLine) {
    && NameOk(l.name) && Lowered(l.name) == TRANSFER_ENCODING && PadOk(l.pad)
    && CodingOk(l.coding, 0) && SpacesOnly(l.spaces)
  }

  function CodingText(l: CodingLine): ByteString { Before(l.name, l.pad) + l.coding + l.spaces + CRLF }

  lemma CodingValueRun(max: nat, f: Fields, log: Log, coding: ByteString, spaces: ByteString)
    requires f.state.HeaderValueDiscardWs? && f.hstate.TransferEncoding? && f.nread + 7 + |spaces| <= max
    requires CodingOk(coding, 0) && SpacesOnly(spaces)
    ensures Leads(max, f, log, coding + spaces,
                  f.(nread := f.nread + 7 + |spaces|, state := HeaderValue, index := 6,
                     hstate := TransferEncodingChunked), Append(log, ValueData, coding + spaces))
  {
    hide Leads, Append, CodingOk;
    CodingRun(max, f, log, coding);
    var c := f.(nread := f.nread + 7, state := HeaderValue, index := 6, hstate := TransferEncodingChunked);
    AppendEnds(log, ValueData, coding);
    var h := SpacesRun(max, c, Append(log, ValueData, coding), spaces);
    AppendTwice(log, ValueData, coding, spaces);
    LeadsThen(max, f, log, coding, c, Append(log, ValueData, coding), spaces, c.(nread := c.nread + |spaces|),
              Append(log, ValueData, coding + spaces));
  }

  lemma CodingLineRun(max: nat, f: Fields, log: Log, l: CodingLine) returns (g: Fields, log1: Log)
    requires AtLine(f) && CodingLineOk(l) && f.nread + |CodingText(l)| <= max
    ensures LineDone(max, f, log, CodingText(l), g, log1, LinePair(LineLog(f, log), l.name, l.coding + l.spaces))
    ensures LineStart(g) == LineStart(f).(nread := g.nread, hstate := g.hstate, index := g.index,
                                          flags := LineStart(f).flags.(chunked := true))
  {
    hide Leads, Append, Tracks, NameOk, PadOk, CodingOk, Before, LineStart, Lowered;
    var b, v, logB := Before(l.name, l.pad), l.coding + l.spaces, Append(LineLog(f, log), FieldData, l.name);
    log1 := Append(logB, ValueData, v);
    var c := BeforeRun(max, f, log, l.name, l.pad);
    TracksWhole(c.hstate, c.index, Lowered(l.name));
    CodingLength(l);
    CodingValueRun(max, c, logB, l.coding, l.spaces);
    var d := c.(nread := c.nread + |v|, state := HeaderValue, index := 6, hstate := TransferEncodingChunked);
    LeadsThen(max, f, log, b, c, logB, v, d, log1);
    ValueEndRun(max, d, log1);
    g := d.(nread := d.nread + 2, state := HeaderValueLws);
    LeadsThen(max, f, log, b + v, d, log1, CRLF, g, log1);
    assert b + v + CRLF == CodingText(l);
    ChunkedFlagLine(g);
    StartsThere(f);
  }

  lemma CodingLength(l: CodingLine)
    requires CodingLineOk(l)
    ensures |l.coding| == 7
  {
  }

  lemma ChunkedFlagLine(g: Fields)
    requires g.state.HeaderValueLws? && g.hstate.TransferEncodingChunked?
    ensures LineStart(g) == g.(state := HeaderFieldStart, flags := g.flags.(chunked := true))
  {
  }

  // ---- The line that says what becomes of the connection ---------------------------------------------

  datatype TokensLine = TokensLine(name: ByteString, pad: ByteString, items: seq<T.Item>)

  predicate TokensLineOk(l: TokensLine) {
    && NameOk(l.name) && (Lowered(l.name) == CONNECTION || Lowered(l.name) == PROXY_CONNECTION)
    && PadOk(l.pad) && T.ItemsOk(l.items)
  }

  function TokensText(l: TokensLine): ByteString { Before(l.name, l.pad) + T.ItemsText(l.items) + CRLF }

  // The list of tokens, and the line break after it.
  lemma TokensValueRun(max: nat, f: Fields, log: Log, items: seq<T.Item>) returns (g: Fields, log1: Log)
    requires f.state.HeaderValueDiscardWs? && f.hstate.Connection? && f.nread + |T.ItemsText(items)| + 2 <= max
    requires T.ItemsOk(items)
    ensures Leads(max, f, log, T.ItemsText(items) + CRLF, g, log1)
    ensures AtLine(g) && !g.state.HeaderFieldStart? && LineLog(g, log1) == Append(log, ValueData, T.ItemsText(items))
    ensures LineStart(g) == f.(state := HeaderFieldStart, hstate := g.hstate, index := g.index,
                               nread := f.nread + |T.ItemsText(items)| + 2, flags := T.TokenFlags(f.flags, items))
  {
    hide Leads, Append, T.ItemsText, T.TokenFlags, T.ItemsOk, WithValueFlag;
    if items == [] {
      T.NothingSaid(f.flags);
      NoItems();
      g, log1 := f.(nread := f.nread + 2, state := HeaderValueDiscardLws), log;
      BreakRun(max, f, log);
      assert T.ItemsText(items) + CRLF == CRLF;
      NoValueFlag(g);
    } else {
      var v := T.ItemsText(items);
      log1 := Append(log, ValueData, v);
      var h := T.ItemsRun(max, f, log, items);
      SameCount(h);
      ValueEndRun(max, h, log1);
      g := h.(nread := h.nread + 2, state := HeaderValueLws);
      LeadsThen(max, f, log, v, h, log1, CRLF, g, log1);
      TokenFlagLine(h, g);
    }
  }

  lemma NoItems()
    ensures T.ItemsText([]) == []
  {
  }

  lemma NoValueFlag(g: Fields)
    requires g.hstate.Connection? && g.state.HeaderValueDiscardLws?
    ensures LineStart(g) == g.(state := HeaderFieldStart)
  {
  }

  lemma SameCount(f: Fields)
    ensures WithValueFlag(f).nread == f.nread && WithValueFlag(f).state == f.state
  {
  }

  lemma TokenFlagLine(h: Fields, g: Fields)
    requires h.state.HeaderValue? && g == h.(nread := h.nread + 2, state := HeaderValueLws)
    requires !h.hstate.TransferEncodingChunked?
    ensures LineStart(g) == WithValueFlag(h).(nread := h.nread + 2, state := HeaderFieldStart)
  {
  }

  lemma TokensLineRun(max: nat, f: Fields, log: Log, l: TokensLine) returns (g: Fields, log1: Log)
    requires AtLine(f) && TokensLineOk(l) && f.nread + |TokensText(l)| <= max
    ensures LineDone(max, f, log, TokensText(l), g, log1, LinePair(LineLog(f, log), l.name, T.ItemsText(l.items)))
    ensures LineStart(g) == LineStart(f).(nread := g.nread, hstate := g.hstate, index := g.index,
                                          flags := T.TokenFlags(LineStart(f).flags, l.items))
  {
    hide Leads, Append, Tracks, NameOk, PadOk, Before, LineStart, Lowered, LineLog, T.ItemsText, T.TokenFlags,
      T.ItemsOk;
    var b, v, logB := Before(l.name, l.pad), T.ItemsText(l.items), Append(LineLog(f, log), FieldData, l.name);
    var c := BeforeRun(max, f, log, l.name, l.pad);
    TracksWhole(c.hstate, c.index, Lowered(l.name));
    g, log1 := TokensValueRun(max, c, logB, l.items);
    LeadsThen(max, f, log, b, c, logB, v + CRLF, g, log1);
    assert b + (v + CRLF) == TokensText(l);
    StartsThere(g);
    StartsThere(f);
  }

  // ---- The line that offers an upgrade -----------------------------------------------------------------

  predicate UpgradeLineOk(l: Line) {
    NameOk(l.name) && Lowered(l.name) == UPGRADE && PadOk(l.pad) && ValueOk(l.value)
  }

  lemma OfferFirstStep(max: nat, f: Fields, log: Log, ch: Byte)
    requires f.state.HeaderValueDiscardWs? && f.hstate.Upgrade? && f.nread + 1 <= max
    requires !IsBlank(ch) && ch != CR && ch != LF
    ensures Step(max, f, log, ch)
         == Next(f.(nread := f.nread + 1, state := HeaderValue, hstate := General, index := 0,
                    flags := f.flags.(upgrade := true)), Append(log, ValueData, [ch]))
  {
    hide Append, ResponseHop, RequestHop, UrlHop, BodyHop, Lower;
    AppendTwice(log, ValueData, [], [ch]);
    assert [] + [ch] == [ch];
  }

  lemma OfferRun(max: nat, f: Fields, log: Log, value: ByteString)
    requires f.state.HeaderValueDiscardWs? && f.hstate.Upgrade? && f.nread + |value| <= max
    requires ValueOk(value) && value != []
    ensures Leads(max, f, log, value,
                  f.(nread := f.nread + |value|, state := HeaderValue, hstate := General, index := 0,
                     flags := f.flags.(upgrade := true)), Append(log, ValueData, Unfolded(value)))
  {
    hide Step, Append, Leads, IsHeaderChar, IsBlank, RestOk;
    var ch, log1 := value[0], Append(log, ValueData, [value[0]]);
    var g := f.(nread := f.nread + 1, state := HeaderValue, hstate := General, index := 0,
                flags := f.flags.(upgrade := true));
    OfferFirstStep(max, f, log, ch);
    LeadsByte(max, f, log, ch, g, log1);
    AppendEnds(log, ValueData, [ch]);
    ValueRest(max, g, log1, value[1..]);
    AppendTwice(log, ValueData, [ch], Unfolded(value[1..]));
    LeadsThen(max, f, log, [ch], g, log1, value[1..], g.(nread := f.nread + |value|),
              Append(log, ValueData, Unfolded(value)));
    assert [ch] + value[1..] == value;
  }

  // An empty value offers nothing.
  lemma UpgradeLineRun(max: nat, f: Fields, log: Log, l: Line) returns (g: Fields, log1: Log)
    requires AtLine(f) && UpgradeLineOk(l) && f.nread + |LineText(l)| <= max
    ensures LineDone(max, f, log, LineText(l), g, log1, LinePair(LineLog(f, log), l.name, Unfolded(l.value)))
    ensures LineStart(g) == Offered(LineStart(f), l).(nread := g.nread, hstate := g.hstate, index := g.index)
  {
    hide Leads, Append, Tracks, NameOk, PadOk, ValueOk, Before, LineStart, Lowered, Unfolded;
    var b, logB := Before(l.name, l.pad), Append(LineLog(f, log), FieldData, l.name);
    var c := BeforeRun(max, f, log, l.name, l.pad);
    TracksWhole(c.hstate, c.index, Lowered(l.name));
    if l.value == [] {
      g, log1 := c.(nread := c.nread + 2, state := HeaderValueDiscardLws), logB;
      BreakRun(max, c, logB);
      LeadsThen(max, f, log, b, c, logB, CRLF, g, logB);
      assert b + l.value + CRLF == b + CRLF;
      UnfoldedNothing();
    } else {
      log1 := Append(logB, ValueData, Unfolded(l.value));
      OfferRun(max, c, logB, l.value);
      var h := c.(nread := c.nread + |l.value|, state := HeaderValue, hstate := General, index := 0,
                  flags := c.flags.(upgrade := true));
      LeadsThen(max, f, log, b, c, logB, l.value, h, log1);
      ValueEndRun(max, h, log1);
      g := h.(nread := h.nread + 2, state := HeaderValueLws);
      LeadsThen(max, f, log, b + l.value, h, log1, CRLF, g, log1);
    }
    OfferLineStart(g);
    StartsThere(f);
  }

  function Offered(f: Fields, l: Line): Fields {
    f.(flags := f.flags.(upgrade := f.flags.upgrade || l.value != []))
  }

  lemma OfferLineStart(g: Fields)
    requires (g.hstate.General? || g.hstate.Upgrade?) && !g.state.HeaderFieldStart?
    ensures LineStart(g) == g.(state := HeaderFieldStart)
  {
  }

  // ---- Header blocks ---------------------------------------------------------------------------------

  datatype HeaderLine =
    | Plain(line: Line) | Length(length: LengthLine, n: nat) | Coding(coding: CodingLine)
    | Tokens(tokens: TokensLine) | Offer(line: Line)

  predicate HeaderOk(l: HeaderLine) {
    match l
    case Plain(p) => LineOk(p) case Length(x, n) => LengthLineOk(x, n) case Coding(c) => CodingLineOk(c)
    case Tokens(t) => TokensLineOk(t) case Offer(u) => UpgradeLineOk(u)
  }

  function HeaderText(l: HeaderLine): ByteString {
    match l
    case Plain(p) => LineText(p) case Length(x, _) => LengthText(x) case Coding(c) => CodingText(c)
    case Tokens(t) => TokensText(t) case Offer(u) => LineText(u)
  }

  // The name and the value of a line, as they are reported.
  function Reported(l: HeaderLine): (ByteString, ByteString) {
    match l
    case Plain(p) => (p.name, Unfolded(p.value))
    case Length(x, _) => (x.name, x.digits + x.spaces)
    case Coding(c) => (c.name, c.coding + c.spaces)
    case Tokens(t) => (t.name, T.ItemsText(t.items))
    case Offer(u) => (u.name, Unfolded(u.value))
  }

  // What the callbacks see of a line.
  function HeaderLog(log: Log, l: HeaderLine): Log {
    LinePair(log, Reported(l).0, Reported(l).1)
  }

  // What a line does to the fields.
  function Framed(f: Fields, l: HeaderLine): Fields {
    match l
    case Plain(_) => f
    case Length(_, n) => f.(contentLength := n, flags := f.flags.(contentLength := true))
    case Coding(_) => f.(flags := f.flags.(chunked := true))
    case Tokens(t) => f.(flags := T.TokenFlags(f.flags, t.items))
    case Offer(u) => Offered(f, u)
  }

  // Any line but a second length is reported and takes effect when the next line begins.
  lemma HeaderRun(max: nat, f: Fields, log: Log, l: HeaderLine) returns (g: Fields, log1: Log)
    requires AtLine(f) && HeaderOk(l) && f.nread + |HeaderText(l)| <= max
    requires l.Length? ==> !LineStart(f).flags.contentLength
    ensures LineDone(max, f, log, HeaderText(l), g, log1, HeaderLog(LineLog(f, log), l))
    ensures LineStart(g) == Framed(LineStart(f), l).(nread := g.nread, hstate := g.hstate, index := g.index)
  {
    hide LineDone, AtLine, LineStart, LineLog, LineOk, LengthLineOk, CodingLineOk, LineText, LengthText, CodingText,
      LinePair, Unfolded, TokensLineOk, TokensText, UpgradeLineOk, T.TokenFlags, T.ItemsText, Offered;
    match l
    case Plain(p) => g, log1 := LineRun(max, f, log, p);
    case Length(x, n) => g, log1 := LengthLineRun(max, f, log, x, n);
    case Coding(c) => g, log1 := CodingLineRun(max, f, log, c);
    case Tokens(t) => g, log1 := TokensLineRun(max, f, log, t);
    case Offer(u) => g, log1 := UpgradeLineRun(max, f, log, u);
  }

  predicate BlockOk(ls: seq<HeaderLine>) { forall l <- ls :: HeaderOk(l) }

  function BlockText(ls: seq<HeaderLine>): ByteString {
    if ls == [] then [] else HeaderText(ls[0]) + BlockText(ls[1..])
  }

  function BlockLog(log: Log, ls: seq<HeaderLine>): Log
    decreases |ls|
  {
    if ls == [] then log else BlockLog(HeaderLog(log, ls[0]), ls[1..])
  }

  function Lengths(ls: seq<HeaderLine>): nat {
    if ls == [] then 0 else (if ls[0].Length? then 1 else 0) + Lengths(ls[1..])
  }

  function Codings(ls: seq<HeaderLine>): nat {
    if ls == [] then 0 else (if ls[0].Coding? then 1 else 0) + Codings(ls[1..])
  }

  // The length that the block gives, or the one there was.
  function LengthGiven(n: nat, ls: seq<HeaderLine>): nat
    decreases |ls|
  {
    if ls == [] then n else LengthGiven(if ls[0].Length? then ls[0].n else n, ls[1..])
  }

  // What the lines do to the fields, one after the other.
  function BlockFramed(f: Fields, ls: seq<HeaderLine>): Fields
    decreases |ls|
  {
    if ls == [] then f else BlockFramed(Framed(f, ls[0]), ls[1..])
  }

  function LengthsSeen(f: Fields, ls: seq<HeaderLine>): nat {
    Lengths(ls) + if f.flags.contentLength then 1 else 0
  }

  // Any number of lines with at most one length are reported in order, and each does to the
  // fields what it does alone.
  lemma {:induction false} BlockRun(max: nat, f: Fields, log: Log, ls: seq<HeaderLine>) returns (g: Fields, log1: Log)
    requires AtLine(f) && BlockOk(ls) && LengthsSeen(LineStart(f), ls) <= 1 && f.nread + |BlockText(ls)| <= max
    ensures LineDone(max, f, log, BlockText(ls), g, log1, BlockLog(LineLog(f, log), ls))
    ensures LineStart(g) == BlockFramed(LineStart(f), ls).(nread := g.nread, hstate := g.hstate, index := g.index)
    decreases |ls|
  {
    hide Leads, AtLine, HeaderOk, HeaderText, HeaderLog, LineStart, LineLog, BlockFramed, Framed, LengthsSeen;
    if ls == [] {
      g, log1 := f, log;
      LeadsNothing(max, f, log);
      StartCounts(f);
      assert BlockFramed(LineStart(f), []) == LineStart(f) by { FramedNothing(LineStart(f)); }
    } else {
      FirstFramed(LineStart(f), ls);
      var h, logH := HeaderRun(max, f, log, ls[0]);
      FramedApart(LineStart(f), ls, h.nread, h.hstate, h.index);
      g, log1 := BlockRun(max, h, logH, ls[1..]);
      LeadsThen(max, f, log, HeaderText(ls[0]), h, logH, BlockText(ls[1..]), g, log1);
    }
  }

  lemma FramedNothing(f: Fields)
    ensures BlockFramed(f, []) == f
  {
  }

  lemma NoneSeen(f: Fields)
    ensures LengthsSeen(f, []) <= 1
  {
  }

  lemma FirstFramed(f: Fields, ls: seq<HeaderLine>)
    requires ls != [] && LengthsSeen(f, ls) <= 1
    ensures ls[0].Length? ==> !f.flags.contentLength
  {
  }

  lemma FramedApart(f: Fields, ls: seq<HeaderLine>, n: nat, h: HeaderState, i: nat)
    requires ls != []
    ensures var g := Framed(f, ls[0]).(nread := n, hstate := h, index := i);
      && BlockFramed(g, ls[1..]) == BlockFramed(f, ls).(nread := n, hstate := h, index := i)
      && LengthsSeen(g, ls[1..]) == LengthsSeen(f, ls) - if ls[0].Length? && f.flags.contentLength then 1 else 0
  {
    hide Framed, LengthsSeen;
    SeenApart(f, ls, n, h, i);
    BlockIgnores(Framed(f, ls[0]), ls[1..], n, h, i);
  }

  lemma SeenApart(f: Fields, ls: seq<HeaderLine>, n: nat, h: HeaderState, i: nat)
    requires ls != []
    ensures LengthsSeen(Framed(f, ls[0]).(nread := n, hstate := h, index := i), ls[1..])
         == LengthsSeen(f, ls) - if ls[0].Length? && f.flags.contentLength then 1 else 0
  {
    hide T.TokenFlags;
    if ls[0].Tokens? {
      TokensKeep(f.flags, ls[0]);
    }
  }

  lemma TokensKeep(fl: Flags, l: HeaderLine)
    requires l.Tokens?
    ensures T.TokenFlags(fl, l.tokens.items).contentLength == fl.contentLength
  {
    hide T.Says;
  }

  lemma {:induction false} BlockIgnores(f: Fields, ls: seq<HeaderLine>, n: nat, h: HeaderState, i: nat)
    ensures BlockFramed(f.(nread := n, hstate := h, index := i), ls)
         == BlockFramed(f, ls).(nread := n, hstate := h, index := i)
    decreases |ls|
  {
    hide T.TokenFlags;
    if ls != [] {
      assert Framed(f.(nread := n, hstate := h, index := i), ls[0])
          == Framed(f, ls[0]).(nread := n, hstate := h, index := i);
      BlockIgnores(Framed(f, ls[0]), ls[1..], n, h, i);
    }
  }

  lemma StartCounts(f: Fields)
    ensures LineStart(f) == LineStart(f).(nread := f.nread, hstate := f.hstate, index := f.index)
  {
  }

  // With more lengths than one it is refused.
  lemma {:induction false} BlockRefused(max: nat, f: Fields, log: Log, ls: seq<HeaderLine>, rest: ByteString)
    requires AtLine(f) && BlockOk(ls) && LengthsSeen(LineStart(f), ls) > 1 && f.nread + |BlockText(ls)| <= max
    ensures var r := Run(max, f, log, BlockText(ls) + rest); r.Failed? && r.err == UnexpectedContentLength
    decreases |ls|
  {
    hide Leads, AtLine, HeaderLog, LineStart, LineLog, Run, LengthLineOk, LengthText, LineOk, CodingLineOk, LineText,
      CodingText, LengthsSeen, Framed;
    NoneSeen(LineStart(f));
    var l, more := ls[0], BlockText(ls[1..]) + rest;
    assert HeaderOk(l);
    assert BlockText(ls) + rest == HeaderText(l) + more;
    if l.Length? && LineStart(f).flags.contentLength {
      LengthAgain(max, f, log, l.length, l.n, more);
    } else {
      var h, logH := HeaderRun(max, f, log, l);
      FramedApart(LineStart(f), ls, h.nread, h.hstate, h.index);
      BlockRefused(max, h, logH, ls[1..], rest);
      LeadsInto(max, f, log, HeaderText(l), h, logH, more);
    }
  }

  lemma PairBody(log: Log, name: ByteString, value: ByteString)
    ensures BodyBytes(LinePair(log, name, value)) == BodyBytes(log)
    ensures Completions(LinePair(log, name, value)) == Completions(log)
  {
    hide Append;
    AppendBytes(log, FieldData, name);
    AppendBytes(Append(log, FieldData, name), ValueData, value);
    assert BodyBytes(log) + [] + [] == BodyBytes(log);
  }

  lemma {:induction false} BlockBody(log: Log, ls: seq<HeaderLine>)
    ensures BodyBytes(BlockLog(log, ls)) == BodyBytes(log) && Completions(BlockLog(log, ls)) == Completions(log)
    decreases |ls|
  {
    hide LinePair, BodyBytes, Completions, Reported;
    if ls != [] {
      PairBody(log, Reported(ls[0]).0, Reported(ls[0]).1);
      BlockBody(HeaderLog(log, ls[0]), ls[1..]);
    }
  }

  // ---- What a block says -----------------------------------------------------------------------------

  predicate LineSays(l: HeaderLine, x: string) { l.Tokens? && T.Says(l.tokens.items, x) }

  predicate LineOffers(l: HeaderLine) { l.Offer? && l.line.value != [] }

  // Some Connection line of the block says the word x.
  predicate BlockSays(ls: seq<HeaderLine>, x: string) { exists l :: l in ls && LineSays(l, x) }

  // Some Upgrade line of the block offers something.
  predicate BlockOffers(ls: seq<HeaderLine>) { exists l :: l in ls && LineOffers(l) }

  function Raised(fl: Flags, chunked: bool, length: bool, keepAlive: bool, close: bool, connectionUpgrade: bool,
                  upgrade: bool): Flags {
    fl.(chunked := fl.chunked || chunked, contentLength := fl.contentLength || length,
        keepAlive := fl.keepAlive || keepAlive, close := fl.close || close,
        connectionUpgrade := fl.connectionUpgrade || connectionUpgrade, upgrade := fl.upgrade || upgrade)
  }

  function FlagsAfter(fl: Flags, ls: seq<HeaderLine>): Flags {
    Raised(fl, Codings(ls) > 0, Lengths(ls) > 0, BlockSays(ls, "keep-alive"), BlockSays(ls, "close"),
           BlockSays(ls, "upgrade"), BlockOffers(ls))
  }

  // The fields after a block, from what its lines say: each flag is set exactly by the lines
  // that stand for it, and nothing else changes but the length.
  lemma {:induction false} BlockMeans(f: Fields, ls: seq<HeaderLine>)
    ensures BlockFramed(f, ls)
         == f.(contentLength := LengthGiven(f.contentLength, ls), flags := FlagsAfter(f.flags, ls))
    decreases |ls|
  {
    hide Framed, FlagsAfter;
    if ls == [] {
      NothingSaid(f.flags);
    } else {
      var g := Framed(f, ls[0]);
      BlockMeans(g, ls[1..]);
      LineMeans(f, ls);
    }
  }

  lemma LineMeans(f: Fields, ls: seq<HeaderLine>)
    requires ls != []
    ensures var g := Framed(f, ls[0]);
      && g == f.(contentLength := if ls[0].Length? then ls[0].n else f.contentLength, flags := g.flags)
      && FlagsAfter(g.flags, ls[1..]) == FlagsAfter(f.flags, ls)
  {
    hide BlockSays, BlockOffers, LineSays, LineOffers, Raised, Framed, Codings, Lengths;
    var l, more := ls[0], ls[1..];
    LineFlags(f, l);
    SaysNext(ls, "keep-alive");
    SaysNext(ls, "close");
    SaysNext(ls, "upgrade");
    CountNext(ls);
    RaisedTwice(f.flags, l.Coding?, l.Length?, LineSays(l, "keep-alive"), LineSays(l, "close"), LineSays(l, "upgrade"),
                LineOffers(l), Codings(more) > 0, Lengths(more) > 0, BlockSays(more, "keep-alive"),
                BlockSays(more, "close"), BlockSays(more, "upgrade"), BlockOffers(more));
  }

  lemma RaisedTwice(fl: Flags, a: bool, b: bool, c: bool, d: bool, e: bool, f: bool,
                    a': bool, b': bool, c': bool, d': bool, e': bool, f': bool)
    ensures Raised(Raised(fl, a, b, c, d, e, f), a', b', c', d', e', f')
         == Raised(fl, a || a', b || b', c || c', d || d', e || e', f || f')
  {
  }

  lemma LineFlags(f: Fields, l: HeaderLine)
    ensures Framed(f, l)
         == f.(contentLength := if l.Length? then l.n else f.contentLength,
               flags := Raised(f.flags, l.Coding?, l.Length?, LineSays(l, "keep-alive"), LineSays(l, "close"),
                               LineSays(l, "upgrade"), LineOffers(l)))
  {
    hide T.Says;
  }

  lemma CountNext(ls: seq<HeaderLine>)
    requires ls != []
    ensures Codings(ls) > 0 <==> ls[0].Coding? || Codings(ls[1..]) > 0
    ensures Lengths(ls) > 0 <==> ls[0].Length? || Lengths(ls[1..]) > 0
  {
  }

  lemma NothingSaid(fl: Flags)
    ensures FlagsAfter(fl, []) == fl
  {
  }

  lemma SaysNext(ls: seq<HeaderLine>, x: string)
    requires ls != []
    ensures BlockSays(ls, x) <==> LineSays(ls[0], x) || BlockSays(ls[1..], x)
    ensures BlockOffers(ls) <==> LineOffers(ls[0]) || BlockOffers(ls[1..])
  {
    hide LineSays, LineOffers;
    assert ls == [ls[0]] + ls[1..];
  }
}
