// Which header blocks the parser refuses for what they say of the body.
module HttpRefused {
  import opened Bytes
  import opened HttpTypes
  import opened HttpHop
  import opened HttpSpec
  import opened HttpFraming
  import opened HttpLines
  import opened HttpMessage
  import opened HttpSplit

  // How many header blocks have been accepted.
  function Accepted(log: Log): nat {
    match log
    case Empty => 0
    case Snoc(l, e) => Accepted(l) + (if e == Notify(HeadersComplete) then 1 else 0)
  }

  lemma AppendBlocks(l: Log, k: DataKind, b: ByteString)
    ensures Accepted(Append(l, k, b)) == Accepted(l)
  {
  }

  lemma {:induction false} BlockLogBlocks(log: Log, ls: seq<HeaderLine>)
    ensures Accepted(BlockLog(log, ls)) == Accepted(log)
    decreases |ls|
  {
    hide Append, Accepted, Reported;
    if ls != [] {
      PairBlocks(log, Reported(ls[0]).0, Reported(ls[0]).1);
      BlockLogBlocks(HeaderLog(log, ls[0]), ls[1..]);
    }
  }

  lemma PairBlocks(log: Log, name: ByteString, value: ByteString)
    ensures Accepted(LinePair(log, name, value)) == Accepted(log)
  {
    hide Append, Accepted;
    AppendBlocks(log, FieldData, name);
    AppendBlocks(Append(log, FieldData, name), ValueData, value);
  }

  // ---- Blocks of such lines ------------------------------------------------------------------

  // The lines of a block agree on how the body ends.
  predicate Consistent(ls: seq<HeaderLine>) {
    Lengths(ls) == 0 || (Lengths(ls) == 1 && Codings(ls) == 0)
  }

  // The byte that ends the headers counts the block, whatever follows it.
  lemma BlockEnds(max: nat, f: Fields, log: Log)
    requires HeadersDue(f) && f.nread + 1 <= max
    ensures var r := Step(max, f, log, LF); (r.Next? || r.Stop?) && Accepted(r.log) == Accepted(log) + 1
  {
    hide Chain, Append, Upgrading;
    var g := f.(nread := f.nread + 1);
    HeadersOver(g, log);
    BlockEnded(g.(upgrade := Upgrading(g), state := HeadersDone), Snoc(log, Notify(HeadersComplete)));
  }

  lemma BlockEnded(f: Fields, log: Log)
    requires f.state.HeadersDone?
    ensures var r := Chain(f, log, LF); (r.Next? || r.Stop?) && Accepted(r.log) == Accepted(log)
  {
    hide Append, ResponseHop, RequestHop, UrlHop, BodyHop, NewMessage, MessageNeedsEof, HeadersAlmostDoneHop;
  }

  lemma BothRefused(max: nat, f: Fields, log: Log)
    requires f.state.HeadersAlmostDone? && f.nread + 1 <= max
    requires !f.flags.trailing && f.flags.chunked && f.flags.contentLength
    ensures Step(max, f, log, LF) == ByteResult.Error(UnexpectedContentLength)
  {
    hide Append, ResponseHop, RequestHop, UrlHop, BodyHop, HeadersDoneHop;
  }

  // A header block is accepted exactly when it has no length, or one and no chunked coding;
  // any other is refused as an unexpected length.
  lemma BlockAccepted(max: nat, f: Fields, log: Log, ls: seq<HeaderLine>)
    requires AtLine(f) && NoFraming(LineStart(f)) && BlockOk(ls) && f.nread + |BlockText(ls)| + 2 <= max
    ensures var r := Run(max, f, log, BlockText(ls) + CRLF);
      && (r.Consumed? || r.Stopped? <==> Consistent(ls))
      && (r.Consumed? || r.Stopped? ==> Accepted(r.log) == Accepted(log) + 1)
      && (!r.Consumed? && !r.Stopped? ==> r.Failed? && r.err == UnexpectedContentLength)
  {
    hide Leads, LineStart, LineLog, Step, BlockOk, BlockText, BlockLog, AtLine, LengthGiven, Accepted, Run,
      Lengths, Codings, BlockFramed;
    if Lengths(ls) > 1 {
      BlockRefused(max, f, log, ls, CRLF);
    } else {
      var h := BlockEndRun(max, f, log, ls);
      var log1 := BlockLog(LineLog(f, log), ls);
      LineLogBlocks(f, log);
      BlockLogBlocks(LineLog(f, log), ls);
      BlockFlags(LineStart(f), ls);
      LeadsInto(max, f, log, BlockText(ls) + [CR], h, log1, [LF]);
      assert BlockText(ls) + [CR] + [LF] == BlockText(ls) + CRLF;
      if Consistent(ls) {
        BlockEnds(max, h, log1);
      } else {
        BothRefused(max, h, log1);
      }
      ByteVerdict(max, h, log1, LF);
    }
  }

  lemma LineLogBlocks(f: Fields, log: Log)
    ensures Accepted(LineLog(f, log)) == Accepted(log)
  {
    hide Append;
    AppendBlocks(log, ValueData, []);
  }

  lemma ByteVerdict(max: nat, f: Fields, log: Log, ch: Byte)
    ensures match Step(max, f, log, ch)
            case Next(h, log2) => Run(max, f, log, [ch]) == Consumed(h, log2)
            case Stop(h, log2) => Run(max, f, log, [ch]) == Stopped(h, log2, 0)
            case Error(e) => Run(max, f, log, [ch]) == Failed(e, 1)
            case Crashed => Run(max, f, log, [ch]) == RunCrashed
  {
    hide Step;
    var one: ByteString := [ch];
    assert one[0] == ch && one[1..] == [];
    var r := Step(max, f, log, ch);
    if r.Next? {
      RunNothing(max, r.f, r.log);
    }
  }

  // ---- Any bytes at all ----------------------------------------------------------------------------

  // Inside the header block of a message, before it is accepted.
  predicate InBlock(f: Fields) {
    IsHeaderState(f.state) && !f.state.HeadersDone? && !f.flags.trailing
  }

  predicate Both(f: Fields) { f.flags.chunked && f.flags.contentLength }

  // Flags that are set stay set.
  predicate KeepsFlags(f: Fields, g: Fields) {
    (f.flags.chunked ==> g.flags.chunked) && (f.flags.contentLength ==> g.flags.contentLength)
  }

  // Nothing but flags changes, and none of them is cleared or says that this is a trailer.
  predicate MoreFlags(f: Fields, g: Fields) {
    g == f.(flags := g.flags) && KeepsFlags(f, g) && g.flags.trailing == f.flags.trailing
  }

  lemma ValueFlag(f: Fields)
    ensures MoreFlags(f, WithValueFlag(f))
  {
    match f.hstate
    case ConnectionKeepAlive => assert WithValueFlag(f).flags == f.flags.(keepAlive := true);
    case ConnectionClose => assert WithValueFlag(f).flags == f.flags.(close := true);
    case ConnectionUpgrade => assert WithValueFlag(f).flags == f.flags.(connectionUpgrade := true);
    case _ => assert WithValueFlag(f) == f;
  }

  lemma HeaderFlags(f: Fields)
    ensures MoreFlags(f, WithHeaderFlag(f))
  {
    hide WithValueFlag;
    ValueFlag(f);
  }

  lemma TokenFlags(f: Fields, ch: Byte)
    ensures var r := AfterToken(f, ch);
      r.Good? && r.f.state == f.state && KeepsFlags(f, r.f) && r.f.flags.trailing == f.flags.trailing
  {
    hide WithValueFlag;
    ValueFlag(f);
  }

  lemma DigitFlags(f: Fields, ch: Byte)
    ensures AddDigit(f, ch).Good? ==> AddDigit(f, ch).f.flags == f.flags && AddDigit(f, ch).f.state == f.state
  {
  }

  lemma NextFlags(f: Fields, ch: Byte)
    ensures var r := ValueNext(f, ch);
      r.Good? ==> r.f.state == f.state && KeepsFlags(f, r.f) && r.f.flags.trailing == f.flags.trailing
  {
    hide IsHeaderChar, ValueMatch, AddDigit, AfterToken;
    TokenFlags(f, ch);
    DigitFlags(f, ch);
  }

  lemma ValueFlags(f: Fields, ch: Byte)
    requires f.state.HeaderValue? && !f.flags.trailing
    ensures var h := ValueHop(f, ch);
      && h.note.None? && !h.flow.Quit?
      && (h.flow.Done? || h.flow.Again? ==> InBlock(h.f) && KeepsFlags(f, h.f))
  {
    hide ValueNext;
    NextFlags(f, ch);
  }

  lemma StartFlags(f: Fields, ch: Byte)
    requires !f.flags.trailing
    ensures var h := ValueStartHop(f, ch);
      && h.note.None? && !h.flow.Quit?
      && (h.flow.Done? || h.flow.Again? ==> InBlock(h.f) && KeepsFlags(f, h.f))
  {
    hide Lower, IsNum, ValueStartState;
  }

  // A pass through the switch keeps to the block, or it accepts it, and then not both flags
  // were set.
  lemma BlockHop(f: Fields, ch: Byte)
    requires InBlock(f)
    ensures var h := HeaderHop(f, ch);
      && !h.flow.Quit?
      && (h.note.None? && (h.flow.Done? || h.flow.Again?) ==> InBlock(h.f) && KeepsFlags(f, h.f))
      && (h.note.Some? ==> h.note == Some(HeadersComplete) && h.flow.Again? && h.f.state.HeadersDone? && !Both(f))
  {
    hide ValueHop, ValueStartHop, FieldHop, Token, WithHeaderFlag, FirstFieldState, HeadersAlmostDoneHop, KeepsFlags,
      Both;
    if f.state.HeaderValue? {
      ValueFlags(f, ch);
    } else if f.state.HeaderValueStart? {
      StartFlags(f, ch);
    } else if f.state.HeaderValueDiscardWs? {
      SkipFlags(f, ch);
    } else if f.state.HeaderField? {
      NameFlags(f, ch);
    } else if f.state.HeadersAlmostDone? {
      EndFlags(f, ch);
    } else {
      OtherFlags(f, ch);
    }
  }

  lemma SkipFlags(f: Fields, ch: Byte)
    requires f.state.HeaderValueDiscardWs? && !f.flags.trailing
    ensures var h := HeaderHop(f, ch);
      h.note.None? && !h.flow.Quit? && (h.flow.Done? || h.flow.Again? ==> InBlock(h.f) && KeepsFlags(f, h.f))
  {
    hide ValueStartHop;
    StartFlags(f, ch);
  }

  lemma NameFlags(f: Fields, ch: Byte)
    requires InBlock(f) && f.state.HeaderField?
    ensures var h := FieldHop(f, ch);
      h.note.None? && !h.flow.Quit? && (h.flow.Done? || h.flow.Again? ==> InBlock(h.f) && KeepsFlags(f, h.f))
  {
    hide Token, FieldNext;
  }

  lemma EndFlags(f: Fields, ch: Byte)
    requires f.state.HeadersAlmostDone? && !f.flags.trailing
    ensures var h := HeadersAlmostDoneHop(f, ch);
      && !h.flow.Quit? && !h.flow.Done? && (h.flow.Again? ==> h.note.Some?)
      && (h.note.Some? ==> h.note == Some(HeadersComplete) && h.flow.Again? && h.f.state.HeadersDone? && !Both(f))
  {
  }

  lemma OtherFlags(f: Fields, ch: Byte)
    requires InBlock(f) && !f.state.HeaderValue? && !f.state.HeaderValueStart? && !f.state.HeaderValueDiscardWs?
    requires !f.state.HeaderField? && !f.state.HeadersAlmostDone?
    ensures var h := HeaderHop(f, ch);
      h.note.None? && !h.flow.Quit? && (h.flow.Done? || h.flow.Again? ==> InBlock(h.f) && KeepsFlags(f, h.f))
  {
    hide ValueHop, ValueStartHop, FieldHop, Token, WithHeaderFlag, FirstFieldState, HeadersAlmostDoneHop;
    HeaderFlags(f);
  }

  lemma LogBlocks(h: Hop, log: Log, ch: Byte)
    ensures Accepted(LogAfter(h, log, ch)) == Accepted(log) + if h.note == Some(HeadersComplete) then 1 else 0
  {
    hide Append;
    var l1 := if h.mark.Some? then Append(log, h.mark.value, []) else log;
    if h.mark.Some? {
      AppendBlocks(log, h.mark.value, []);
    }
    if h.flush.FlushThrough? {
      AppendBlocks(l1, h.flush.kind, [ch]);
    }
  }

  predicate AtLeast(r: ByteResult, n: nat) {
    match r case Next(_, log) => Accepted(log) >= n case Stop(_, log) => Accepted(log) >= n case _ => true
  }

  lemma {:induction false} ChainBlocks(f: Fields, log: Log, ch: Byte)
    ensures AtLeast(Chain(f, log, ch), Accepted(log))
    decreases Rank(f.state)
  {
    hide Switch, LogAfter, OpenAfter, Append, Accepted;
    var h := Switch(f, ch);
    LogBlocks(h, log, ch);
    var log' := LogAfter(h, log, ch);
    var open := OpenAfter(h, Open(f.state));
    if open.Some? {
      AppendBlocks(log', open.value, [ch]);
    }
    if h.flow.Again? && Rank(h.f.state) < Rank(f.state) {
      ChainBlocks(h.f, log', ch);
    }
  }

  // One byte inside a block: an accepted block is counted; else we are still inside, with
  // the flags there were.
  predicate StaysOr(f: Fields, n: nat, r: ByteResult) {
    && AtLeast(r, n) && (r.Stop? ==> Accepted(r.log) > n)
    && (r.Next? && Accepted(r.log) == n ==> InBlock(r.f) && KeepsFlags(f, r.f))
    && (Both(f) ==> !r.Stop? && (r.Next? ==> Accepted(r.log) == n))
  }

  lemma {:induction false} BlockChain(f: Fields, log: Log, ch: Byte)
    requires InBlock(f)
    ensures StaysOr(f, Accepted(log), Chain(f, log, ch))
    decreases Rank(f.state)
  {
    hide HeaderHop, ResponseHop, RequestHop, UrlHop, BodyHop, LogAfter, OpenAfter, Append, Accepted, Rank;
    InSwitch(f);
    var h := Switch(f, ch);
    BlockHop(f, ch);
    LogBlocks(h, log, ch);
    var log' := LogAfter(h, log, ch);
    var open := OpenAfter(h, Open(f.state));
    if open.Some? {
      AppendBlocks(log', open.value, [ch]);
    }
    if h.flow.Again? && Rank(h.f.state) < Rank(f.state) {
      if h.note.None? {
        BlockChain(h.f, log', ch);
      } else {
        ChainBlocks(h.f, log', ch);
      }
    }
  }

  lemma InSwitch(f: Fields)
    requires IsHeaderState(f.state)
    ensures !IsResponseState(f.state) && !IsRequestState(f.state) && !IsUrlState(f.state)
  {
  }

  lemma BlockStep(max: nat, f: Fields, log: Log, ch: Byte)
    requires InBlock(f)
    ensures StaysOr(f, Accepted(log), Step(max, f, log, ch))
  {
    hide Chain, Accepted;
    BlockChain(f.(nread := f.nread + 1), log, ch);
  }

  lemma AnyStep(max: nat, f: Fields, log: Log, ch: Byte)
    ensures AtLeast(Step(max, f, log, ch), Accepted(log))
  {
    hide Chain, Accepted;
    ChainBlocks(f, log, ch);
    ChainBlocks(f.(nread := f.nread + 1), log, ch);
  }

  lemma {:induction false} AnyRun(max: nat, f: Fields, log: Log, s: ByteString)
    ensures var r := Run(max, f, log, s); r.Consumed? || r.Stopped? ==> Accepted(r.log) >= Accepted(log)
    decreases |s|
  {
    hide Step, Accepted;
    if s != [] {
      AnyStep(max, f, log, s[0]);
      var r := Step(max, f, log, s[0]);
      if r.Next? {
        AnyRun(max, r.f, r.log, s[1..]);
      }
    }
  }

  // As long as no block is accepted a run stays inside the one it is in, with the flags
  // there were.
  lemma {:induction false} BlockStays(max: nat, f: Fields, log: Log, s: ByteString)
    requires InBlock(f)
    ensures var r := Run(max, f, log, s);
      && (r.Consumed? && Accepted(r.log) == Accepted(log) ==> InBlock(r.f) && KeepsFlags(f, r.f))
      && (Both(f) ==> !r.Stopped? && (r.Consumed? ==> Accepted(r.log) == Accepted(log)))
    decreases |s|
  {
    hide Step, Accepted, InBlock;
    if s != [] {
      BlockStep(max, f, log, s[0]);
      var r := Step(max, f, log, s[0]);
      if r.Next? {
        AnyRun(max, r.f, r.log, s[1..]);
        if Accepted(r.log) == Accepted(log) {
          BlockStays(max, r.f, r.log, s[1..]);
        }
      }
    }
  }

  // The limit on header bytes decides only whether there is an overflow.
  lemma {:induction false} LimitApart(max: nat, max': nat, f: Fields, log: Log, s: ByteString)
    requires max <= max'
    ensures var r := Run(max, f, log, s); (r.Failed? && r.err == HeaderOverflow) || r == Run(max', f, log, s)
    decreases |s|
  {
    hide Chain;
    if s != [] {
      var r := Step(max, f, log, s[0]);
      if r.Next? && r == Step(max', f, log, s[0]) {
        LimitApart(max, max', r.f, r.log, s[1..]);
      }
    }
  }

  predicate IsFraming(x: HeaderLine) { x.Length? || x.Coding? }

  // The block is never accepted: whatever comes, no such run completes it.
  predicate NeverAccepted(r: RunResult, log: Log) {
    !r.Stopped? && (r.Consumed? ==> Accepted(r.log) == Accepted(log))
  }

  // A block that has two lengths, or a length and the chunked coding, in whichever order, is
  // never accepted, whatever else is in it before, between and after the two lines: s leads
  // from the end of the first line to the start of the second, and rest is any
  // continuation. Neither line is folded.
  lemma ContradictionNever(max: nat, f: Fields, log: Log, x: HeaderLine, s: ByteString, g: Fields, log1: Log,
                           y: HeaderLine, rest: ByteString)
    requires AtLine(f) && InBlock(LineStart(f)) && HeaderOk(x) && HeaderOk(y)
    requires IsFraming(x) && IsFraming(y) && (x.Length? || y.Length?)
    requires Leads(max, f, log, HeaderText(x) + s, g, log1) && AtLine(g) && Accepted(log1) == Accepted(log)
    requires (s == [] || !IsBlank(s[0])) && (rest == [] || !IsBlank(rest[0]))
    ensures NeverAccepted(Run(max, f, log, HeaderText(x) + s + (HeaderText(y) + rest)), log)
  {
    hide Leads, AtLine, LineStart, LineLog, HeaderOk, HeaderText, HeaderLog, Framed, Accepted, Run, InBlock, IsBlank;
    var m := max + f.nread + |HeaderText(x)| + g.nread + |HeaderText(y)|;
    var t, u := HeaderText(x) + s, HeaderText(y) + rest;
    LimitApart(max, m, f, log, t);
    LimitApart(max, m, f, log, t + u);
    RunIs(max, f, log, t, g, log1);
    LeadsAt(m, f, log, t, g, log1);
    LeadsInto(m, f, log, t, g, log1, u);
    if x.Length? && LineStart(f).flags.contentLength {
      TwiceNever(m, f, log, x, s + u);
      assert t + u == HeaderText(x) + (s + u);
    } else {
      FirstSets(m, f, log, x, s, g, log1);
      SecondNever(m, g, log1, x, y, rest);
    }
  }

  lemma RunIs(max: nat, f: Fields, log: Log, s: ByteString, g: Fields, log1: Log)
    requires Leads(max, f, log, s, g, log1)
    ensures Run(max, f, log, s) == Consumed(g, log1)
  {
  }

  lemma LeadsAt(max: nat, f: Fields, log: Log, s: ByteString, g: Fields, log1: Log)
    requires Run(max, f, log, s) == Consumed(g, log1)
    ensures Leads(max, f, log, s, g, log1)
  {
  }

  lemma TwiceNever(max: nat, f: Fields, log: Log, x: HeaderLine, rest: ByteString)
    requires AtLine(f) && HeaderOk(x) && x.Length? && LineStart(f).flags.contentLength
    requires f.nread + |HeaderText(x)| <= max
    ensures Run(max, f, log, HeaderText(x) + rest).Failed?
  {
    hide AtLine, LineStart, LengthLineOk, LengthText, Run;
    LengthAgain(max, f, log, x.length, x.n, rest);
  }

  predicate Sets(f: Fields, x: HeaderLine) {
    if x.Length? then f.flags.contentLength else f.flags.chunked
  }

  // The first line sets its flag, and it is still set when the second begins.
  lemma FirstSets(max: nat, f: Fields, log: Log, x: HeaderLine, s: ByteString, g: Fields, log1: Log)
    requires AtLine(f) && InBlock(LineStart(f)) && HeaderOk(x) && IsFraming(x) && f.nread + |HeaderText(x)| <= max
    requires x.Length? ==> !LineStart(f).flags.contentLength
    requires Leads(max, f, log, HeaderText(x) + s, g, log1) && AtLine(g) && Accepted(log1) == Accepted(log)
    requires s == [] || !IsBlank(s[0])
    ensures InBlock(LineStart(g)) && Sets(LineStart(g), x)
  {
    hide Leads, AtLine, LineStart, LineLog, HeaderOk, HeaderText, HeaderLog, Accepted, Run, IsBlank;
    var h, logH := HeaderRun(max, f, log, x);
    StillInBlock(LineStart(f), LineStart(h), x);
    RunIs(max, f, log, HeaderText(x) + s, g, log1);
    LeadsInto(max, f, log, HeaderText(x), h, logH, s);
    if s == [] {
      RunNothing(max, h, logH);
    } else {
      LineOverRun(max, h, logH, s);
      LineBlocks(f, log, x, h, logH);
      BlockStays(max, LineStart(h), LineLog(h, logH), s);
      NextStart(g);
    }
  }

  lemma RunNothing(max: nat, f: Fields, log: Log)
    ensures Run(max, f, log, []) == Consumed(f, log)
  {
  }

  lemma StillInBlock(f: Fields, g: Fields, x: HeaderLine)
    requires InBlock(f) && g == Framed(f, x).(nread := g.nread, hstate := g.hstate, index := g.index)
    ensures InBlock(g) && (IsFraming(x) ==> Sets(g, x))
  {
  }

  lemma NextStart(g: Fields)
    requires InBlock(g)
    ensures InBlock(LineStart(g)) && KeepsFlags(g, LineStart(g))
  {
    hide WithHeaderFlag;
    HeaderFlags(g);
  }

  lemma LineBlocks(f: Fields, log: Log, x: HeaderLine, h: Fields, logH: Log)
    requires LineLog(h, logH) == HeaderLog(LineLog(f, log), x)
    ensures Accepted(LineLog(h, logH)) == Accepted(log)
  {
    hide Accepted, LinePair, Reported, LineLog;
    LineLogBlocks(f, log);
    var l := LineLog(f, log);
    PairBlocks(l, Reported(x).0, Reported(x).1);
  }

  lemma SecondNever(max: nat, g: Fields, log: Log, x: HeaderLine, y: HeaderLine, rest: ByteString)
    requires AtLine(g) && InBlock(LineStart(g)) && Sets(LineStart(g), x) && HeaderOk(y)
    requires IsFraming(x) && IsFraming(y) && (x.Length? || y.Length?) && g.nread + |HeaderText(y)| <= max
    requires rest == [] || !IsBlank(rest[0])
    ensures NeverAccepted(Run(max, g, log, HeaderText(y) + rest), log)
  {
    hide Leads, AtLine, LineStart, LineLog, HeaderOk, HeaderText, HeaderLog, Accepted, Run, IsBlank;
    if y.Length? && LineStart(g).flags.contentLength {
      TwiceNever(max, g, log, y, rest);
    } else {
      var h, logH := HeaderRun(max, g, log, y);
      StillInBlock(LineStart(g), LineStart(h), y);
      FramedFlags(LineStart(g), y);
      LineBlocks(g, log, y, h, logH);
      LeadsInto(max, g, log, HeaderText(y), h, logH, rest);
      if rest == [] {
        RunNothing(max, h, logH);
        LineLogBlocks(h, logH);
      } else {
        LineOverRun(max, h, logH, rest);
        BlockStays(max, LineStart(h), LineLog(h, logH), rest);
      }
    }
  }

  lemma FramedFlags(f: Fields, x: HeaderLine)
    ensures KeepsFlags(f, Framed(f, x))
  {
  }
}
