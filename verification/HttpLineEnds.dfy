// Lines that end with a line feed alone, and parsers that take either kind of message.
module HttpLineEnds {
  import opened Bytes
  import opened HttpTypes
  import opened HttpHop
  import opened HttpSpec
  import opened HttpFraming
  import opened HttpLines
  import opened HttpNames
  import opened HttpStart
  import opened HttpPipeline

  // ---- Bare line feeds -----------------------------------------------------------------------

  // The states in which a line of a head can end.
  predicate EndsLine(s: State) {
    || s.ReqHttpEnd? || (IsUrlState(s) && !Early(s)) || s.ResStatusCode? || s.ResStatusStart? || s.ResStatus?
    || s.HeaderFieldStart? || s.HeaderValueDiscardWs? || s.HeaderValue?
  }

  // There a line feed alone does what it does after a carriage return, but for the count.
  ghost predicate BareWorks(max: nat, f: Fields, log: Log) {
    var r := Step(max, f, log, CR);
    r.Next? && Step(max, f, log, LF) == Step(max, r.f.(nread := f.nread), r.log, LF)
  }

  lemma BareLineFeed(max: nat, f: Fields, log: Log)
    requires EndsLine(f.state) && f.nread + 1 <= max
    ensures BareWorks(max, f, log)
  {
    hide BareWorks, IsUrlState;
    match f.state
    case ReqHttpEnd => BareVersion(max, f, log);
    case ResStatusCode => BareCode(max, f, log);
    case ResStatusStart => BareReason(max, f, log);
    case ResStatus => BareStatus(max, f, log);
    case HeaderFieldStart => BareBlank(max, f, log);
    case HeaderValueDiscardWs => BareEmpty(max, f, log);
    case HeaderValue => BareValue(max, f, log);
    case _ => BareTarget(max, f, log);
  }

  lemma BareVersion(max: nat, f: Fields, log: Log)
    requires f.state.ReqHttpEnd? && f.nread + 1 <= max
    ensures BareWorks(max, f, log)
  {
    hide Step, Letter;
    assert Letter(ReqHttpEnd, CR, ReqLineAlmostDone) && Letter(ReqLineAlmostDone, LF, HeaderFieldStart) by {
      VersionLetters();
    }
    LetterStep(max, f, log, CR, ReqLineAlmostDone);
    LetterStep(max, f.(state := ReqLineAlmostDone), log, LF, HeaderFieldStart);
    BareVersionStep(max, f, log);
  }

  lemma VersionLetters()
    ensures Letter(ReqHttpEnd, CR, ReqLineAlmostDone) && Letter(ReqLineAlmostDone, LF, HeaderFieldStart)
  {
  }

  lemma BareVersionStep(max: nat, f: Fields, log: Log)
    requires f.state.ReqHttpEnd? && f.nread + 1 <= max
    ensures Step(max, f, log, LF) == Next(f.(nread := f.nread + 1, state := HeaderFieldStart), log)
  {
    hide Append, ResponseHop, UrlHop, HeaderHop, BodyHop, MethodHop;
  }

  lemma BareTarget(max: nat, f: Fields, log: Log)
    requires IsUrlState(f.state) && !Early(f.state) && f.nread + 1 <= max
    ensures BareWorks(max, f, log)
  {
    hide Step;
    ShortEndStep(max, f, log);
    LetterStep(max, f.(major := 0, minor := 9, state := ReqLineAlmostDone), log, LF, HeaderFieldStart);
    BareTargetStep(max, f, log);
  }

  lemma BareTargetStep(max: nat, f: Fields, log: Log)
    requires IsUrlState(f.state) && !Early(f.state) && f.nread + 1 <= max
    ensures Step(max, f, log, LF)
         == Next(f.(nread := f.nread + 1, major := 0, minor := 9, state := HeaderFieldStart), log)
  {
    hide Append, ResponseHop, RequestHop, HeaderHop, BodyHop;
  }

  lemma BareStatus(max: nat, f: Fields, log: Log)
    requires f.state.ResStatus? && f.nread + 1 <= max
    ensures BareWorks(max, f, log)
  {
    hide Append, RequestHop, UrlHop, HeaderHop, BodyHop;
  }

  // Both bytes are looked at again where the reason begins.
  lemma ReasonAgain(f: Fields, log: Log, ch: Byte)
    requires (f.state.ResStatusCode? || f.state.ResStatusStart?) && (ch == CR || ch == LF)
    ensures Chain(f, log, ch) == Chain(f.(state := ResStatus, index := 0), Append(log, StatusData, []), ch)
  {
    hide Append, RequestHop, UrlHop, HeaderHop, BodyHop, IsNum;
    if f.state.ResStatusCode? {
      CodeAgain(f, log, ch);
    }
  }

  lemma CodeAgain(f: Fields, log: Log, ch: Byte)
    requires f.state.ResStatusCode? && (ch == CR || ch == LF)
    ensures Chain(f, log, ch) == Chain(f.(state := ResStatusStart), log, ch)
  {
    hide Append, RequestHop, UrlHop, HeaderHop, BodyHop;
  }

  lemma BareReason(max: nat, f: Fields, log: Log)
    requires (f.state.ResStatusCode? || f.state.ResStatusStart?) && f.nread + 1 <= max
    ensures BareWorks(max, f, log)
  {
    hide Chain, Append, BareWorks;
    ReasonAgain(f.(nread := f.nread + 1), log, CR);
    ReasonAgain(f.(nread := f.nread + 1), log, LF);
    BareStatus(max, f.(state := ResStatus, index := 0), Append(log, StatusData, []));
    BareSame(max, f, log, f.(state := ResStatus, index := 0), Append(log, StatusData, []));
  }

  lemma BareCode(max: nat, f: Fields, log: Log)
    requires f.state.ResStatusCode? && f.nread + 1 <= max
    ensures BareWorks(max, f, log)
  {
    hide BareWorks;
    BareReason(max, f, log);
  }

  lemma BareSame(max: nat, f: Fields, log: Log, g: Fields, log1: Log)
    requires Step(max, f, log, CR) == Step(max, g, log1, CR) && Step(max, f, log, LF) == Step(max, g, log1, LF)
    requires f.nread == g.nread && BareWorks(max, g, log1)
    ensures BareWorks(max, f, log)
  {
    hide Step;
  }

  lemma BareBlank(max: nat, f: Fields, log: Log)
    requires f.state.HeaderFieldStart? && f.nread + 1 <= max
    ensures BareWorks(max, f, log)
  {
    hide Chain;
    TrailerStep(max, f, log);
    BlankAgain(f.(nread := f.nread + 1), log);
  }

  lemma BlankAgain(f: Fields, log: Log)
    requires f.state.HeaderFieldStart?
    ensures Chain(f, log, LF) == Chain(f.(state := HeadersAlmostDone), log, LF)
  {
    hide Append, Token, ResponseHop, RequestHop, UrlHop, BodyHop, HeadersAlmostDoneHop;
  }

  lemma BareEmpty(max: nat, f: Fields, log: Log)
    requires f.state.HeaderValueDiscardWs? && f.nread + 1 <= max
    ensures BareWorks(max, f, log)
  {
    hide Step;
    BreakStep(max, f, log);
    BrokenStep(max, f.(state := HeaderValueDiscardWsAlmostDone), log);
    BareEmptyStep(max, f, log);
  }

  lemma BareEmptyStep(max: nat, f: Fields, log: Log)
    requires f.state.HeaderValueDiscardWs? && f.nread + 1 <= max
    ensures Step(max, f, log, LF) == Next(f.(nread := f.nread + 1, state := HeaderValueDiscardLws), log)
  {
    hide Append, ResponseHop, RequestHop, UrlHop, BodyHop, ValueStartHop;
  }

  lemma BareValue(max: nat, f: Fields, log: Log)
    requires f.state.HeaderValue? && f.nread + 1 <= max
    ensures BareWorks(max, f, log)
  {
    hide Chain;
    ValueEndStep(max, f, log);
    ValueAgain(f.(nread := f.nread + 1), log);
  }

  lemma ValueAgain(f: Fields, log: Log)
    requires f.state.HeaderValue?
    ensures Chain(f, log, LF) == Chain(f.(state := HeaderAlmostDone), log, LF)
  {
    hide Append, ResponseHop, RequestHop, UrlHop, BodyHop, ValueNext;
  }

  // ---- Either kind of message ------------------------------------------------------------------

  function KindOf(l: FirstLine): ParserType { if l.Asks? then HttpRequest else HttpResponse }

  function StartOf(l: FirstLine): State { if l.Asks? then StartReq else StartRes }

  // A parser for either kind does on a first line and what follows it what one of that kind
  // does.
  lemma EitherFirst(max: nat, f: Fields, log: Log, l: FirstLine, rest: ByteString)
    requires f.state.StartReqOrRes? && FirstOk(l) && f.nread + 2 <= max
    ensures var s := FirstText(l) + rest;
      Run(max, f, log, s) == Run(max, f.(ty := KindOf(l), state := StartOf(l)), log, s)
  {
    hide Step, FirstOk, StatusLineText, RequestLineText, VerbText;
    var s := FirstText(l) + rest;
    match l
    case Asks(r) =>
      VerbBytes(r, rest);
      if s[0] == 'H' {
        EitherHead(max, f, log);
        FirstTwo(max, f, f.(ty := HttpRequest, state := StartReq), log, s);
      } else {
        EitherStep(max, f, log, s[0]);
      }
    case Answers(a) =>
      HttpBytes(a, rest);
      EitherHttp(max, f, log);
      FirstTwo(max, f, f.(ty := HttpResponse, state := StartRes), log, s);
  }

  lemma VerbBytes(r: RequestLine, rest: ByteString)
    ensures var s := RequestLineText(r) + rest;
      |s| >= 2 && s[0] != CR && s[0] != LF && (s[0] == 'H' ==> s[1] == 'E')
  {
    hide MethodName;
    var name := VerbText(r.verb);
    VerbIsName(r.verb);
    assert RequestLineText(r)[..|name|] == name;
  }

  lemma VerbIsName(m: Method)
    ensures var w := MethodName(m); |w| >= 3 && 'A' <= w[0] <= 'Z' && (w[0] == 'H' ==> w[1] == 'E')
  {
  }

  lemma HttpBytes(a: StatusLine, rest: ByteString)
    ensures var s := StatusLineText(a) + rest; |s| >= 2 && s[0] == 'H' && s[1] == 'T'
  {
  }

  lemma FirstTwo(max: nat, f: Fields, g: Fields, log: Log, s: ByteString)
    requires |s| >= 2 && TwoSteps(max, f, log, s[0], s[1]) == TwoSteps(max, g, log, s[0], s[1])
    requires TwoSteps(max, f, log, s[0], s[1]).Next?
    ensures Run(max, f, log, s) == Run(max, g, log, s)
  {
    hide Step;
    assert s[1..][0] == s[1];
  }

  ghost function TwoSteps(max: nat, f: Fields, log: Log, a: Byte, b: Byte): ByteResult {
    match Step(max, f, log, a) case Next(g, log1) => Step(max, g, log1, b) case r => Crashed
  }

  lemma EitherHead(max: nat, f: Fields, log: Log)
    requires f.state.StartReqOrRes? && f.nread + 2 <= max
    ensures var g := f.(ty := HttpRequest, state := StartReq);
      TwoSteps(max, f, log, 'H', 'E') == TwoSteps(max, g, log, 'H', 'E') && TwoSteps(max, f, log, 'H', 'E').Next?
  {
    hide Step, MethodName, NextCandidate;
    var g, log1 := f.(ty := HttpRequest, state := StartReq), Snoc(log, Notify(MessageBegin));
    HeadIs();
    EitherStep(max, f, log, 'H');
    SecondStep(max, Fresh(f).(nread := f.nread + 1, state := ResOrRespH), log1, 'E');
    FirstStep(max, g, log, 'H');
    MethodStep(max, Fresh(g).(verb := HEAD, index := 1, nread := g.nread + 1, state := ReqMethod), log1, 'E');
  }

  lemma EitherHttp(max: nat, f: Fields, log: Log)
    requires f.state.StartReqOrRes? && f.nread + 2 <= max
    ensures var g := f.(ty := HttpResponse, state := StartRes);
      TwoSteps(max, f, log, 'H', 'T') == TwoSteps(max, g, log, 'H', 'T') && TwoSteps(max, f, log, 'H', 'T').Next?
  {
    hide Step;
    var g, log1 := f.(ty := HttpResponse, state := StartRes), Snoc(log, Notify(MessageBegin));
    EitherStep(max, f, log, 'H');
    SecondStep(max, Fresh(f).(nread := f.nread + 1, state := ResOrRespH), log1, 'T');
    ResponseStartStep(max, g, log);
    LetterStep(max, Fresh(g).(nread := g.nread + 1, state := ResH), log1, 'T', ResHT);
  }
}
