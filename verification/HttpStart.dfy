// The first line of a message: what a request line and a status line leave in the fields and
// report.
module HttpStart {
  import opened Bytes
  import opened HttpTypes
  import opened HttpHop
  import opened HttpSpec
  import opened HttpFraming
  import opened HttpNames
  import opened UrlChars

  // ---- Request targets -----------------------------------------------------------------------

  // Where parse_url_char is after some bytes.
  function UrlAfter(s: State, t: ByteString): State
    decreases |t|
  {
    if t == [] then s else UrlAfter(ParseUrlChar(s, t[0]), t[1..])
  }

  function UrlFrom(verb: Method): State { if verb == CONNECT then ReqServerStart else ReqSpacesBeforeUrl }

  predicate Early(s: State) {
    s.ReqSchema? || s.ReqSchemaSlash? || s.ReqSchemaSlashSlash? || s.ReqServerStart?
  }

  // A target that the request line can go on after.
  predicate TargetOk(verb: Method, t: ByteString) {
    var s := UrlAfter(UrlFrom(verb), t);
    t != [] && !s.Dead? && !Early(s)
  }

  predicate Visible(ch: Byte) { '!' <= ch <= '~' }

  lemma {:induction false} DeadStays(t: ByteString)
    ensures UrlAfter(Dead, t) == Dead
    decreases |t|
  {
    if t != [] {
      DeadStays(t[1..]);
    }
  }

  predicate InPath(s: State) {
    s.ReqPath? || s.ReqQueryStringStart? || s.ReqQueryString? || s.ReqFragmentStart? || s.ReqFragment?
  }

  // From the path on any visible bytes are accepted, and no others.
  lemma {:induction false} PathBytes(s: State, t: ByteString)
    requires InPath(s)
    ensures if forall ch <- t :: Visible(ch) then InPath(UrlAfter(s, t)) else UrlAfter(s, t).Dead?
    decreases |t|
  {
    if t != [] {
      assert t == [t[0]] + t[1..];
      PathByte(s, t[0]);
      if Visible(t[0]) {
        PathBytes(ParseUrlChar(s, t[0]), t[1..]);
      } else {
        DeadStays(t[1..]);
      }
    }
  }

  lemma PathByte(s: State, ch: Byte)
    requires InPath(s)
    ensures if Visible(ch) then InPath(ParseUrlChar(s, ch)) else ParseUrlChar(s, ch).Dead?
  {
  }

  // A path with any query and fragment is a target of every method but CONNECT exactly when
  // its bytes are visible.
  lemma OriginForm(verb: Method, t: ByteString)
    requires verb != CONNECT && t != [] && t[0] == '/'
    ensures TargetOk(verb, t) <==> forall ch <- t :: Visible(ch)
  {
    assert t == [t[0]] + t[1..];
    PathBytes(ReqPath, t[1..]);
  }

  // What a host and a port are made of.
  predicate InAuthority(ch: Byte) { IsAlphaNum(ch) || ch == '.' || ch == '-' || ch == ':' }

  predicate InServer(s: State) { s.ReqServerStart? || s.ReqServer? }

  lemma {:induction false} NameBytes(s: State, t: ByteString)
    requires InServer(s) && forall ch <- t :: InAuthority(ch)
    ensures UrlAfter(s, t) == if t == [] then s else ReqServer
    decreases |t|
  {
    hide ParseUrlChar, InAuthority;
    if t != [] {
      NameByte(s, t[0]);
      NameBytes(ReqServer, t[1..]);
    }
  }

  lemma NameByte(s: State, ch: Byte)
    requires InServer(s) && InAuthority(ch)
    ensures ParseUrlChar(s, ch) == ReqServer
  {
  }

  // A host and a port are a target of CONNECT.
  lemma AuthorityForm(t: ByteString)
    requires t != [] && forall ch <- t :: InAuthority(ch)
    ensures TargetOk(CONNECT, t)
  {
    NameBytes(ReqServerStart, t);
  }

  // ---- Absolute targets ---------------------------------------------------------------------------

  predicate AtServer(s: State) { s.ReqServerStart? || s.ReqServer? || s.ReqServerWithAt? }

  predicate ServerByte(ch: Byte) { IsUserInfoChar(ch) || ch == '[' || ch == ']' || ch == '@' }

  // No at sign stands right behind another; at tells whether one comes before w.
  predicate AtsApart(at: bool, w: ByteString)
    decreases |w|
  {
    w == [] || (!(at && w[0] == '@') && AtsApart(w[0] == '@', w[1..]))
  }

  lemma ServerStep(s: State, ch: Byte)
    requires AtServer(s)
    ensures AtServer(ParseUrlChar(s, ch)) <==> ServerByte(ch) && !(s.ReqServerWithAt? && ch == '@')
    ensures AtServer(ParseUrlChar(s, ch)) ==> (ParseUrlChar(s, ch).ReqServerWithAt? <==> ch == '@')
    ensures AtServer(ParseUrlChar(s, ch)) ==> !ParseUrlChar(s, ch).ReqServerStart?
    ensures !AtServer(ParseUrlChar(s, ch)) ==> InPath(ParseUrlChar(s, ch)) || ParseUrlChar(s, ch).Dead?
    ensures InPath(ParseUrlChar(s, ch)) <==> ch == '/' || ch == '?'
  {
  }

  lemma {:induction false} NeverServer(s: State, w: ByteString)
    requires InPath(s) || s.Dead?
    ensures !AtServer(UrlAfter(s, w))
    decreases |w|
  {
    hide ParseUrlChar;
    if w != [] {
      if s.Dead? {
        DeadStays(w);
      } else {
        PathByte(s, w[0]);
        NeverServer(ParseUrlChar(s, w[0]), w[1..]);
      }
    }
  }

  // An authority is any bytes of user information and hosts, brackets and at signs, with no
  // two at signs side by side.
  lemma {:induction false} ServerBytes(s: State, w: ByteString)
    requires AtServer(s)
    ensures AtServer(UrlAfter(s, w)) <==> (forall ch <- w :: ServerByte(ch)) && AtsApart(s.ReqServerWithAt?, w)
    ensures AtServer(UrlAfter(s, w)) && w != [] ==> !UrlAfter(s, w).ReqServerStart?
    decreases |w|
  {
    hide ParseUrlChar, ServerByte;
    if w != [] {
      assert w == [w[0]] + w[1..];
      ServerStep(s, w[0]);
      var s1 := ParseUrlChar(s, w[0]);
      if AtServer(s1) {
        ServerBytes(s1, w[1..]);
      } else {
        NeverServer(s1, w[1..]);
      }
    }
  }

  lemma {:induction false} UrlAfterBoth(s: State, a: ByteString, b: ByteString)
    ensures UrlAfter(s, a + b) == UrlAfter(UrlAfter(s, a), b)
    decreases |a|
  {
    hide ParseUrlChar;
    if a == [] {
      assert a + b == b;
    } else {
      assert (a + b)[0] == a[0] && (a + b)[1..] == a[1..] + b;
      UrlAfterBoth(ParseUrlChar(s, a[0]), a[1..], b);
    }
  }

  lemma {:induction false} SchemeBytes(w: ByteString)
    requires forall ch <- w :: IsAlpha(ch)
    ensures UrlAfter(ReqSchema, w) == ReqSchema
    decreases |w|
  {
    hide ParseUrlChar, IsAlpha;
    if w != [] {
      SchemeByte(w[0]);
      SchemeBytes(w[1..]);
    }
  }

  lemma SchemeByte(ch: Byte)
    requires IsAlpha(ch)
    ensures ParseUrlChar(ReqSchema, ch) == ReqSchema && ParseUrlChar(ReqSpacesBeforeUrl, ch) == ReqSchema
  {
  }

  lemma SlashesLead()
    ensures UrlAfter(ReqSchema, "://") == ReqServerStart
  {
    assert !IsAlpha(':');
    var t: ByteString := "://";
    assert t[1..] == "//" && t[1..][1..] == "/" && t[1..][1..][1..] == [];
    assert UrlAfter(ReqServerStart, []) == ReqServerStart;
    assert UrlAfter(ReqSchemaSlashSlash, "/") == ReqServerStart;
  }

  // A scheme of letters and a nonempty authority without at signs side by side, with nothing
  // or any path behind it, is a target of every method but CONNECT.
  lemma AbsoluteForm(verb: Method, scheme: ByteString, authority: ByteString, path: ByteString)
    requires verb != CONNECT && scheme != [] && (forall ch <- scheme :: IsAlpha(ch)) && authority != []
    requires (forall ch <- authority :: ServerByte(ch)) && AtsApart(false, authority)
    requires path == [] || (path[0] == '/' && forall ch <- path :: Visible(ch))
    ensures TargetOk(verb, scheme + "://" + authority + path)
  {
    hide ParseUrlChar, IsAlpha, ServerByte;
    var front := scheme + "://";
    SchemeByte(scheme[0]);
    SchemeBytes(scheme[1..]);
    assert UrlAfter(ReqSpacesBeforeUrl, scheme) == ReqSchema;
    SlashesLead();
    UrlAfterBoth(ReqSpacesBeforeUrl, scheme, "://");
    ServerBytes(ReqServerStart, authority);
    var s := UrlAfter(ReqServerStart, authority);
    UrlAfterBoth(ReqSpacesBeforeUrl, front, authority);
    UrlAfterBoth(ReqSpacesBeforeUrl, front + authority, path);
    if path != [] {
      ServerStep(s, '/');
      assert path == [path[0]] + path[1..];
      PathBytes(ParseUrlChar(s, '/'), path[1..]);
    }
  }

  // ---- Single bytes --------------------------------------------------------------------------------

  lemma TargetFirstStep(max: nat, f: Fields, log: Log, ch: Byte)
    requires f.state.ReqSpacesBeforeUrl? && f.nread + 1 <= max && !ParseUrlChar(UrlFrom(f.verb), ch).Dead?
    ensures IsUrlState(ParseUrlChar(UrlFrom(f.verb), ch))
    ensures Step(max, f, log, ch)
         == Next(f.(nread := f.nread + 1, state := ParseUrlChar(UrlFrom(f.verb), ch)), Append(log, UrlData, [ch]))
  {
    hide ParseUrlChar, Append, ResponseHop, UrlHop, HeaderHop, BodyHop, MethodHop;
    UrlStepTarget(UrlFrom(f.verb), ch);
    NoBreak(UrlFrom(f.verb), ch);
    AppendTwice(log, UrlData, [], [ch]);
    assert [] + [ch] == [ch];
  }

  lemma NoBreak(s: State, ch: Byte)
    requires !ParseUrlChar(s, ch).Dead?
    ensures ch != ' ' && ch != CR && ch != LF
  {
  }

  lemma TargetStep(max: nat, f: Fields, log: Log, ch: Byte)
    requires IsUrlState(f.state) && f.nread + 1 <= max && !ParseUrlChar(f.state, ch).Dead?
    ensures IsUrlState(ParseUrlChar(f.state, ch))
    ensures Step(max, f, log, ch)
         == Next(f.(nread := f.nread + 1, state := ParseUrlChar(f.state, ch)), Append(log, UrlData, [ch]))
  {
    hide ParseUrlChar, Append, UrlHop, ResponseHop, RequestHop, HeaderHop, BodyHop;
    UrlStepTarget(f.state, ch);
    TargetHop(f.(nread := f.nread + 1), ch);
  }

  lemma TargetHop(f: Fields, ch: Byte)
    requires IsUrlState(f.state) && !ParseUrlChar(f.state, ch).Dead?
    ensures UrlHop(f, ch) == Go(f, ParseUrlChar(f.state, ch))
  {
    hide ParseUrlChar;
    NoBreak(f.state, ch);
  }

  lemma TargetEndStep(max: nat, f: Fields, log: Log)
    requires IsUrlState(f.state) && !Early(f.state) && f.nread + 1 <= max
    ensures Step(max, f, log, ' ') == Next(f.(nread := f.nread + 1, state := ReqHttpStart), log)
  {
    hide ParseUrlChar, Append, ResponseHop, RequestHop, HeaderHop, BodyHop;
  }

  lemma {:induction false} TargetRest(max: nat, f: Fields, log: Log, t: ByteString)
    requires IsUrlState(f.state) && f.nread + |t| <= max && !UrlAfter(f.state, t).Dead? && EndsIn(log, UrlData)
    ensures IsUrlState(UrlAfter(f.state, t))
    ensures Leads(max, f, log, t, f.(nread := f.nread + |t|, state := UrlAfter(f.state, t)), Append(log, UrlData, t))
    decreases |t|
  {
    hide Step, Append, ParseUrlChar, Leads;
    if t == [] {
      LeadsNothing(max, f, log);
      AppendNothing(log, UrlData);
    } else {
      if ParseUrlChar(f.state, t[0]).Dead? {
        DeadStays(t[1..]);
      }
      TargetStep(max, f, log, t[0]);
      var g, log1 := f.(nread := f.nread + 1, state := ParseUrlChar(f.state, t[0])), Append(log, UrlData, [t[0]]);
      LeadsByte(max, f, log, t[0], g, log1);
      AppendEnds(log, UrlData, [t[0]]);
      TargetRest(max, g, log1, t[1..]);
      AppendTwice(log, UrlData, [t[0]], t[1..]);
      assert [t[0]] + t[1..] == t;
      var h := f.(nread := f.nread + |t|, state := UrlAfter(f.state, t));
      LeadsThen(max, f, log, [t[0]], g, log1, t[1..], h, Append(log, UrlData, t));
    }
  }

  lemma TargetOnly(max: nat, f: Fields, log: Log, t: ByteString) returns (g: Fields)
    requires f.state.ReqSpacesBeforeUrl? && f.nread + |t| <= max && TargetOk(f.verb, t)
    ensures Leads(max, f, log, t, g, Append(log, UrlData, t))
    ensures IsUrlState(g.state) && !Early(g.state) && g == f.(nread := f.nread + |t|, state := g.state)
  {
    hide Step, Append, ParseUrlChar, Leads;
    var s := ParseUrlChar(UrlFrom(f.verb), t[0]);
    if s.Dead? {
      DeadStays(t[1..]);
    }
    TargetFirstStep(max, f, log, t[0]);
    var h, log1 := f.(nread := f.nread + 1, state := s), Append(log, UrlData, [t[0]]);
    LeadsByte(max, f, log, t[0], h, log1);
    AppendEnds(log, UrlData, [t[0]]);
    TargetRest(max, h, log1, t[1..]);
    AppendTwice(log, UrlData, [t[0]], t[1..]);
    assert [t[0]] + t[1..] == t;
    g := f.(nread := f.nread + |t|, state := UrlAfter(s, t[1..]));
    LeadsThen(max, f, log, [t[0]], h, log1, t[1..], g, Append(log, UrlData, t));
  }

  // The target and the space after it.
  lemma TargetRun(max: nat, f: Fields, log: Log, t: ByteString)
    requires f.state.ReqSpacesBeforeUrl? && f.nread + |t| + 1 <= max && TargetOk(f.verb, t)
    ensures Leads(max, f, log, t + [' '], f.(nread := f.nread + |t| + 1, state := ReqHttpStart),
                  Append(log, UrlData, t))
  {
    hide Step, Append, Leads, TargetOk;
    var log1 := Append(log, UrlData, t);
    var h := TargetOnly(max, f, log, t);
    TargetEndStep(max, h, log1);
    LeadsByte(max, h, log1, ' ', h.(nread := h.nread + 1, state := ReqHttpStart), log1);
    LeadsThen(max, f, log, t, h, log1, [' '], f.(nread := f.nread + |t| + 1, state := ReqHttpStart), log1);
  }

  // ---- The protocol and its version ------------------------------------------------------------------

  // A byte that is the only one accepted in its state.
  predicate RequestLetter(s: State, ch: Byte, next: State) {
    match s
    case ReqHttpStart => ch == 'H' && next == ReqHttpH
    case ReqHttpH => ch == 'T' && next == ReqHttpHT
    case ReqHttpHT => ch == 'T' && next == ReqHttpHTT
    case ReqHttpHTT => ch == 'P' && next == ReqHttpHTTP
    case ReqHttpHTTP => ch == '/' && next == ReqHttpMajor
    case ReqHttpDot => ch == '.' && next == ReqHttpMinor
    case ReqHttpEnd => ch == CR && next == ReqLineAlmostDone
    case ReqLineAlmostDone => ch == LF && next == HeaderFieldStart
    case _ => false
  }

  predicate ResponseLetter(s: State, ch: Byte, next: State) {
    match s
    case ResH => ch == 'T' && next == ResHT
    case ResHT => ch == 'T' && next == ResHTT
    case ResHTT => ch == 'P' && next == ResHTTP
    case ResHTTP => ch == '/' && next == ResHttpMajor
    case ResHttpDot => ch == '.' && next == ResHttpMinor
    case ResHttpEnd => ch == ' ' && next == ResFirstStatusCode
    case ResLineAlmostDone => ch == LF && next == HeaderFieldStart
    case _ => false
  }

  predicate Letter(s: State, ch: Byte, next: State) { RequestLetter(s, ch, next) || ResponseLetter(s, ch, next) }

  lemma LetterStep(max: nat, f: Fields, log: Log, ch: Byte, next: State)
    requires Letter(f.state, ch, next) && f.nread + 1 <= max
    ensures Step(max, f, log, ch) == Next(f.(nread := f.nread + 1, state := next), log)
  {
    hide Append, HeaderHop, BodyHop, UrlHop, RequestHop, ResponseHop, Letter;
    LetterHop(f.(nread := f.nread + 1), ch, next);
  }

  lemma LetterHop(f: Fields, ch: Byte, next: State)
    requires Letter(f.state, ch, next)
    ensures Open(f.state).None? && ParsingHeader(f.state) && Switch(f, ch) == Go(f, next)
  {
    hide HeaderHop, BodyHop, UrlHop, MethodHop, RequestHop, ResponseHop, RequestLetter, ResponseLetter,
      IsRequestState, IsResponseState, Open, ParsingHeader;
    if RequestLetter(f.state, ch, next) {
      RequestLetterHop(f, ch, next);
      RequestQuiet(f.state);
    } else {
      ResponseLetterHop(f, ch, next);
      ResponseQuiet(f.state);
    }
  }

  lemma RequestQuiet(s: State)
    requires IsRequestState(s)
    ensures Open(s).None? && ParsingHeader(s)
  {
  }

  lemma ResponseQuiet(s: State)
    requires IsResponseState(s) && !s.ResStatus?
    ensures Open(s).None? && ParsingHeader(s)
  {
  }

  lemma ResponseLetterHop(f: Fields, ch: Byte, next: State)
    requires ResponseLetter(f.state, ch, next)
    ensures IsResponseState(f.state) && !f.state.ResStatus? && ResponseHop(f, ch) == Go(f, next)
  {
    hide IsNum, Digit, Fresh;
  }

  lemma RequestLetterHop(f: Fields, ch: Byte, next: State)
    requires RequestLetter(f.state, ch, next)
    ensures IsRequestState(f.state) && !IsResponseState(f.state) && RequestHop(f, ch) == Go(f, next)
  {
    hide MethodHop, FirstCandidate, UrlStep, IsAlpha, IsNum, Fresh;
  }

  lemma {:induction false} LettersRun(max: nat, f: Fields, log: Log, w: ByteString, ss: seq<State>)
    requires f.nread + |w| <= max && |ss| == |w| + 1 && ss[0] == f.state
    requires forall i :: 0 <= i < |w| ==> Letter(ss[i], w[i], ss[i + 1])
    ensures Leads(max, f, log, w, f.(nread := f.nread + |w|, state := ss[|w|]), log)
    decreases |w|
  {
    hide Step, Letter, Leads;
    if w == [] {
      LeadsNothing(max, f, log);
    } else {
      assert Letter(ss[0], w[0], ss[0 + 1]);
      LetterStep(max, f, log, w[0], ss[1]);
      var g := f.(nread := f.nread + 1, state := ss[1]);
      LeadsByte(max, f, log, w[0], g, log);
      LettersRun(max, g, log, w[1..], ss[1..]);
      LeadsThen(max, f, log, [w[0]], g, log, w[1..], f.(nread := f.nread + |w|, state := ss[|w|]), log);
      assert [w[0]] + w[1..] == w;
    }
  }

  lemma MajorStep(max: nat, f: Fields, log: Log, d: Byte)
    requires (f.state.ReqHttpMajor? || f.state.ResHttpMajor?) && f.nread + 1 <= max && IsNum(d)
    ensures Step(max, f, log, d)
         == Next(f.(nread := f.nread + 1, major := d as int - '0' as int,
                    state := if f.state.ReqHttpMajor? then ReqHttpDot else ResHttpDot), log)
  {
    hide Append, HeaderHop, BodyHop, UrlHop, MethodHop;
  }

  lemma MinorStep(max: nat, f: Fields, log: Log, d: Byte)
    requires (f.state.ReqHttpMinor? || f.state.ResHttpMinor?) && f.nread + 1 <= max && IsNum(d)
    ensures Step(max, f, log, d)
         == Next(f.(nread := f.nread + 1, minor := d as int - '0' as int,
                    state := if f.state.ReqHttpMinor? then ReqHttpEnd else ResHttpEnd), log)
  {
    hide Append, HeaderHop, BodyHop, UrlHop, MethodHop;
  }

  // The two digits with the dot between them, for a request or a response.
  lemma DigitsRun(max: nat, f: Fields, log: Log, major: Byte, minor: Byte)
    requires (f.state.ReqHttpMajor? || f.state.ResHttpMajor?) && f.nread + 3 <= max && IsNum(major) && IsNum(minor)
    ensures Leads(max, f, log, [major, '.', minor],
                  f.(nread := f.nread + 3, major := major as int - '0' as int, minor := minor as int - '0' as int,
                     state := if f.state.ReqHttpMajor? then ReqHttpEnd else ResHttpEnd), log)
  {
    hide Step, Leads;
    var dot, least, end := if f.state.ReqHttpMajor? then ReqHttpDot else ResHttpDot,
      if f.state.ReqHttpMajor? then ReqHttpMinor else ResHttpMinor,
      if f.state.ReqHttpMajor? then ReqHttpEnd else ResHttpEnd;
    var a := f.(nread := f.nread + 1, major := major as int - '0' as int, state := dot);
    var b := a.(nread := a.nread + 1, state := least);
    var c := b.(nread := b.nread + 1, minor := minor as int - '0' as int, state := end);
    MajorStep(max, f, log, major);
    LetterStep(max, a, log, '.', least);
    MinorStep(max, b, log, minor);
    LeadsByte(max, f, log, major, a, log);
    LeadsByte(max, a, log, '.', b, log);
    LeadsByte(max, b, log, minor, c, log);
    LeadsThen(max, f, log, [major], a, log, ['.'], b, log);
    LeadsThen(max, f, log, [major] + ['.'], b, log, [minor], c, log);
    assert [major] + ['.'] + [minor] == [major, '.', minor];
  }

  // ---- Request lines -----------------------------------------------------------------------------------

  datatype RequestLine = RequestLine(verb: Method, target: ByteString, major: Byte, minor: Byte)

  predicate RequestLineOk(l: RequestLine) { TargetOk(l.verb, l.target) && IsNum(l.major) && IsNum(l.minor) }

  function VerbText(verb: Method): ByteString { MethodName(verb) }

  function RequestLineText(l: RequestLine): ByteString {
    VerbText(l.verb) + [' '] + (l.target + [' ']) + "HTTP/" + [l.major, '.', l.minor] + CRLF
  }

  lemma HttpRun(max: nat, f: Fields, log: Log)
    requires f.state.ReqHttpStart? && f.nread + 5 <= max
    ensures Leads(max, f, log, "HTTP/", f.(nread := f.nread + 5, state := ReqHttpMajor), log)
  {
    hide Leads;
    LettersRun(max, f, log, "HTTP/", [ReqHttpStart, ReqHttpH, ReqHttpHT, ReqHttpHTT, ReqHttpHTTP, ReqHttpMajor]);
  }

  // The method SOURCE alone may name another protocol.
  lemma IceStep(max: nat, f: Fields, log: Log)
    requires f.state.ReqHttpStart? && f.nread + 1 <= max
    ensures Step(max, f, log, 'I')
         == if f.verb == SOURCE then Next(f.(nread := f.nread + 1, state := ReqHttpI), log)
            else ByteResult.Error(InvalidConstant)
  {
    hide Append, ResponseHop, UrlHop, HeaderHop, BodyHop, MethodHop;
  }

  lemma IceLetters(max: nat, f: Fields, log: Log)
    requires f.nread + 1 <= max
    ensures f.state.ReqHttpI? ==> Step(max, f, log, 'C') == Next(f.(nread := f.nread + 1, state := ReqHttpIC), log)
    ensures f.state.ReqHttpIC? ==> Step(max, f, log, 'E') == Next(f.(nread := f.nread + 1, state := ReqHttpHTTP), log)
  {
    hide Append, ResponseHop, UrlHop, HeaderHop, BodyHop, MethodHop;
  }

  lemma IceRun(max: nat, f: Fields, log: Log)
    requires f.state.ReqHttpStart? && f.verb == SOURCE && f.nread + 4 <= max
    ensures Leads(max, f, log, "ICE/", f.(nread := f.nread + 4, state := ReqHttpMajor), log)
  {
    hide Leads, Step, Letter;
    var a, b, c := f.(nread := f.nread + 1, state := ReqHttpI), f.(nread := f.nread + 2, state := ReqHttpIC),
      f.(nread := f.nread + 3, state := ReqHttpHTTP);
    IceStep(max, f, log);
    IceLetters(max, a, log);
    IceLetters(max, b, log);
    LeadsByte(max, f, log, 'I', a, log);
    LeadsByte(max, a, log, 'C', b, log);
    LeadsByte(max, b, log, 'E', c, log);
    LettersRun(max, c, log, "/", [ReqHttpHTTP, ReqHttpMajor]) by {
      SlashLetter();
    }
    assert "I" + "C" == "IC" && "IC" + "E" == "ICE" && "ICE" + "/" == "ICE/";
    LeadsThen(max, f, log, "I", a, log, "C", b, log);
    LeadsThen(max, f, log, "IC", b, log, "E", c, log);
    LeadsThen(max, f, log, "ICE", c, log, "/", f.(nread := f.nread + 4, state := ReqHttpMajor), log);
  }

  lemma SlashLetter()
    ensures Letter(ReqHttpHTTP, '/', ReqHttpMajor)
  {
  }

  lemma LineEndRun(max: nat, f: Fields, log: Log)
    requires f.state.ReqHttpEnd? && f.nread + 2 <= max
    ensures Leads(max, f, log, CRLF, f.(nread := f.nread + 2, state := HeaderFieldStart), log)
  {
    hide Leads;
    LettersRun(max, f, log, CRLF, [ReqHttpEnd, ReqLineAlmostDone, HeaderFieldStart]);
  }

  lemma VerbRun(max: nat, f: Fields, log: Log, verb: Method) returns (g: Fields)
    requires f.state.StartReq? && f.nread + |VerbText(verb)| + 1 <= max
    ensures Leads(max, f, log, VerbText(verb) + [' '], g, Snoc(log, Notify(MessageBegin)))
    ensures g == Fresh(f).(verb := verb, index := g.index, nread := f.nread + |VerbText(verb)| + 1,
                           state := ReqSpacesBeforeUrl)
  {
    hide Step, Leads, MethodName, Position;
    var name := VerbText(verb);
    PositionInside(verb);
    var log' := Snoc(log, Notify(MessageBegin));
    var h := MethodRun(max, f, log, verb, name);
    MethodEndStep(max, h, log');
    g := h.(index := h.index + 1, nread := h.nread + 1, state := ReqSpacesBeforeUrl);
    LeadsByte(max, h, log', ' ', g, log');
    LeadsThen(max, f, log, name, h, log', [' '], g, log');
  }

  // A request line gives the method, the target and the version of the message, and takes
  // back what the message before it has left.
  lemma RequestLineRun(max: nat, f: Fields, log: Log, l: RequestLine) returns (g: Fields, log1: Log)
    requires f.state.StartReq? && RequestLineOk(l) && f.nread + |RequestLineText(l)| <= max
    ensures Leads(max, f, log, RequestLineText(l), g, log1)
    ensures log1 == Append(Snoc(log, Notify(MessageBegin)), UrlData, l.target)
    ensures g == f.(flags := NO_FLAGS, contentLength := NO_LENGTH, verb := l.verb, index := g.index,
                    nread := f.nread + |RequestLineText(l)|, state := HeaderFieldStart,
                    major := l.major as int - '0' as int, minor := l.minor as int - '0' as int)
  {
    hide Leads, VerbText, TargetOk, Append;
    var v, t, d := VerbText(l.verb) + [' '], l.target + [' '], [l.major, '.', l.minor];
    var logV := Snoc(log, Notify(MessageBegin));
    log1 := Append(logV, UrlData, l.target);
    var a := VerbRun(max, f, log, l.verb);
    TargetRun(max, a, logV, l.target);
    var b := a.(nread := a.nread + |t|, state := ReqHttpStart);
    LeadsThen(max, f, log, v, a, logV, t, b, log1);
    HttpRun(max, b, log1);
    var c := b.(nread := b.nread + 5, state := ReqHttpMajor);
    LeadsThen(max, f, log, v + t, b, log1, "HTTP/", c, log1);
    DigitsRun(max, c, log1, l.major, l.minor);
    var e := c.(nread := c.nread + 3, major := l.major as int - '0' as int, minor := l.minor as int - '0' as int,
                state := ReqHttpEnd);
    LeadsThen(max, f, log, v + t + "HTTP/", c, log1, d, e, log1);
    LineEndRun(max, e, log1);
    g := e.(nread := e.nread + 2, state := HeaderFieldStart);
    LeadsThen(max, f, log, v + t + "HTTP/" + d, e, log1, CRLF, g, log1);
  }

  // A request line without a version is one of version 0.9.
  lemma ShortLineRun(max: nat, f: Fields, log: Log, verb: Method, t: ByteString) returns (g: Fields)
    requires f.state.StartReq? && TargetOk(verb, t) && f.nread + |VerbText(verb)| + |t| + 3 <= max
    ensures Leads(max, f, log, VerbText(verb) + [' '] + t + CRLF, g,
                  Append(Snoc(log, Notify(MessageBegin)), UrlData, t))
    ensures g.state == HeaderFieldStart && g.verb == verb && g.major == 0 && g.minor == 9
  {
    hide Leads, VerbText, TargetOk, Append, Step;
    var v, logV := VerbText(verb) + [' '], Snoc(log, Notify(MessageBegin));
    var log1 := Append(logV, UrlData, t);
    var a := VerbRun(max, f, log, verb);
    var b := TargetOnly(max, a, logV, t);
    LeadsThen(max, f, log, v, a, logV, t, b, log1);
    ShortEndStep(max, b, log1);
    var c := b.(nread := b.nread + 1, major := 0, minor := 9, state := ReqLineAlmostDone);
    LetterStep(max, c, log1, LF, HeaderFieldStart);
    g := c.(nread := c.nread + 1, state := HeaderFieldStart);
    LeadsLine(max, b, log1, c, log1, g, log1);
    LeadsThen(max, f, log, v + t, b, log1, CRLF, g, log1);
  }

  lemma ShortEndStep(max: nat, f: Fields, log: Log)
    requires IsUrlState(f.state) && !Early(f.state) && f.nread + 1 <= max
    ensures Step(max, f, log, CR)
         == Next(f.(nread := f.nread + 1, major := 0, minor := 9, state := ReqLineAlmostDone), log)
  {
    hide ParseUrlChar, Append, ResponseHop, RequestHop, HeaderHop, BodyHop;
  }

  // ---- Status lines ---------------------------------------------------------------------------------------

  datatype StatusLine = StatusLine(major: Byte, minor: Byte, code: ByteString, reason: ByteString)

  predicate OnLine(ch: Byte) { ch != CR && ch != LF }

  predicate StatusLineOk(l: StatusLine) {
    && IsNum(l.major) && IsNum(l.minor) && CodeOk(l.code)
    && forall ch <- l.reason :: OnLine(ch)
  }

  predicate CodeOk(code: ByteString) {
    code != [] && (forall d <- code :: IsNum(d)) && DecNumeral(0, code) <= 999
  }

  function StatusLineText(l: StatusLine): ByteString {
    "HTTP/" + [l.major, '.', l.minor] + [' '] + (l.code + [' ']) + l.reason + CRLF
  }

  lemma ResponseStartStep(max: nat, f: Fields, log: Log)
    requires f.state.StartRes? && f.nread + 1 <= max
    ensures Step(max, f, log, 'H')
         == Next(Fresh(f).(nread := f.nread + 1, state := ResH), Snoc(log, Notify(MessageBegin)))
  {
    hide Append, HeaderHop, BodyHop, UrlHop, RequestHop;
  }

  lemma ProtocolRun(max: nat, f: Fields, log: Log)
    requires f.state.StartRes? && f.nread + 5 <= max
    ensures Leads(max, f, log, "HTTP/", Fresh(f).(nread := f.nread + 5, state := ResHttpMajor),
                  Snoc(log, Notify(MessageBegin)))
  {
    hide Leads, Step;
    var g, log1 := Fresh(f).(nread := f.nread + 1, state := ResH), Snoc(log, Notify(MessageBegin));
    ResponseStartStep(max, f, log);
    LeadsByte(max, f, log, 'H', g, log1);
    LettersRun(max, g, log1, "TTP/", [ResH, ResHT, ResHTT, ResHTTP, ResHttpMajor]);
    LeadsThen(max, f, log, "H", g, log1, "TTP/", Fresh(f).(nread := f.nread + 5, state := ResHttpMajor), log1);
    assert "H" + "TTP/" == "HTTP/";
  }

  lemma CodeFirstStep(max: nat, f: Fields, log: Log, d: Byte)
    requires f.state.ResFirstStatusCode? && f.nread + 1 <= max && IsNum(d)
    ensures Step(max, f, log, d) == Next(f.(nread := f.nread + 1, state := ResStatusCode, status := Digit(d)), log)
  {
    hide Append, HeaderHop, BodyHop, UrlHop, RequestHop;
  }

  lemma CodeStep(max: nat, f: Fields, log: Log, d: Byte)
    requires f.state.ResStatusCode? && f.nread + 1 <= max && IsNum(d)
    ensures Step(max, f, log, d)
         == if f.status * 10 + Digit(d) > 999 then ByteResult.Error(InvalidStatus)
            else Next(f.(nread := f.nread + 1, status := f.status * 10 + Digit(d)), log)
  {
    hide Append, HeaderHop, BodyHop, UrlHop, RequestHop;
  }

  // The digits of a status code are accepted exactly when their numeral is at most 999, and
  // it is the status.
  lemma {:induction false} CodeDigits(max: nat, f: Fields, log: Log, ds: ByteString)
    requires f.state.ResStatusCode? && f.nread + |ds| <= max && f.status <= 999 && forall d <- ds :: IsNum(d)
    ensures var v := DecNumeral(f.status, ds);
      if v <= 999 then Leads(max, f, log, ds, f.(nread := f.nread + |ds|, status := v), log)
      else Run(max, f, log, ds).Failed? && Run(max, f, log, ds).err == InvalidStatus
    decreases |ds|
  {
    hide Step;
    if ds != [] {
      CodeStep(max, f, log, ds[0]);
      var v := f.status * 10 + Digit(ds[0]);
      if v > 999 {
        DecNumeralGrows(v, ds[1..]);
      } else {
        CodeDigits(max, f.(nread := f.nread + 1, status := v), log, ds[1..]);
      }
    }
  }

  lemma CodeEndStep(max: nat, f: Fields, log: Log)
    requires f.state.ResStatusCode? && f.nread + 1 <= max
    ensures Step(max, f, log, ' ') == Next(f.(nread := f.nread + 1, state := ResStatusStart), log)
  {
    hide Append, HeaderHop, BodyHop, UrlHop, RequestHop;
  }

  lemma CodeRun(max: nat, f: Fields, log: Log, code: ByteString)
    requires f.state.ResFirstStatusCode? && f.nread + |code| + 1 <= max && CodeOk(code)
    ensures Leads(max, f, log, code + [' '],
                  f.(nread := f.nread + |code| + 1, status := DecNumeral(0, code), state := ResStatusStart), log)
  {
    hide Step, Leads;
    var g := f.(nread := f.nread + 1, state := ResStatusCode, status := Digit(code[0]));
    CodeFirstStep(max, f, log, code[0]);
    LeadsByte(max, f, log, code[0], g, log);
    assert DecNumeral(0, code) == DecNumeral(Digit(code[0]), code[1..]);
    CodeDigits(max, g, log, code[1..]);
    var h := f.(nread := f.nread + |code|, status := DecNumeral(0, code), state := ResStatusCode);
    LeadsThen(max, f, log, [code[0]], g, log, code[1..], h, log);
    assert [code[0]] + code[1..] == code;
    CodeEndStep(max, h, log);
    LeadsByte(max, h, log, ' ', h.(nread := h.nread + 1, state := ResStatusStart), log);
    LeadsThen(max, f, log, code, h, log, [' '], h.(nread := h.nread + 1, state := ResStatusStart), log);
  }

  lemma ReasonFirstStep(max: nat, f: Fields, log: Log, ch: Byte)
    requires f.state.ResStatusStart? && f.nread + 1 <= max && OnLine(ch)
    ensures Step(max, f, log, ch)
         == Next(f.(nread := f.nread + 1, state := ResStatus, index := 0), Append(log, StatusData, [ch]))
  {
    hide Append, HeaderHop, BodyHop, UrlHop, RequestHop;
    AppendTwice(log, StatusData, [], [ch]);
    assert [] + [ch] == [ch];
  }

  lemma NoReasonStep(max: nat, f: Fields, log: Log)
    requires f.state.ResStatusStart? && f.nread + 1 <= max
    ensures Step(max, f, log, CR)
         == Next(f.(nread := f.nread + 1, state := ResLineAlmostDone, index := 0), Append(log, StatusData, []))
  {
    hide Append, Chain;
    var g := f.(nread := f.nread + 1);
    ReasonBegins(g, log);
    ReasonEnds(g.(state := ResStatus, index := 0), Append(log, StatusData, []));
  }

  lemma ReasonBegins(f: Fields, log: Log)
    requires f.state.ResStatusStart?
    ensures Chain(f, log, CR) == Chain(f.(state := ResStatus, index := 0), Append(log, StatusData, []), CR)
  {
    hide Append, HeaderHop, BodyHop, UrlHop, RequestHop;
  }

  lemma ReasonEnds(f: Fields, log: Log)
    requires f.state.ResStatus?
    ensures Chain(f, log, CR) == Next(f.(state := ResLineAlmostDone), log)
  {
    hide Append, HeaderHop, BodyHop, UrlHop, RequestHop;
  }

  lemma ReasonStep(max: nat, f: Fields, log: Log, ch: Byte)
    requires f.state.ResStatus? && f.nread + 1 <= max && OnLine(ch)
    ensures Step(max, f, log, ch) == Next(f.(nread := f.nread + 1), Append(log, StatusData, [ch]))
  {
    hide Append, HeaderHop, BodyHop, UrlHop, RequestHop;
  }

  lemma ReasonEndStep(max: nat, f: Fields, log: Log)
    requires f.state.ResStatus? && f.nread + 1 <= max
    ensures Step(max, f, log, CR) == Next(f.(nread := f.nread + 1, state := ResLineAlmostDone), log)
  {
    hide Append, HeaderHop, BodyHop, UrlHop, RequestHop;
  }

  lemma {:induction false} ReasonRest(max: nat, f: Fields, log: Log, s: ByteString)
    requires f.state.ResStatus? && f.nread + |s| <= max && EndsIn(log, StatusData)
    requires forall ch <- s :: OnLine(ch)
    ensures Leads(max, f, log, s, f.(nread := f.nread + |s|), Append(log, StatusData, s))
    decreases |s|
  {
    hide Step, Append, Leads;
    if s == [] {
      LeadsNothing(max, f, log);
      AppendNothing(log, StatusData);
    } else {
      var g, log1 := f.(nread := f.nread + 1), Append(log, StatusData, [s[0]]);
      ReasonStep(max, f, log, s[0]);
      LeadsByte(max, f, log, s[0], g, log1);
      AppendEnds(log, StatusData, [s[0]]);
      ReasonRest(max, g, log1, s[1..]);
      AppendTwice(log, StatusData, [s[0]], s[1..]);
      assert [s[0]] + s[1..] == s;
      LeadsThen(max, f, log, [s[0]], g, log1, s[1..], f.(nread := f.nread + |s|), Append(log, StatusData, s));
    }
  }

  // The reason phrase, which may be empty, and the end of the line.
  lemma ReasonRun(max: nat, f: Fields, log: Log, reason: ByteString)
    requires f.state.ResStatusStart? && f.nread + |reason| + 2 <= max && forall ch <- reason :: OnLine(ch)
    ensures Leads(max, f, log, reason + CRLF,
                  f.(nread := f.nread + |reason| + 2, state := HeaderFieldStart, index := 0),
                  Append(log, StatusData, reason))
  {
    hide Step, Append, Leads;
    var e := f.(nread := f.nread + |reason| + 2, state := HeaderFieldStart, index := 0);
    var d := e.(nread := e.nread - 1, state := ResLineAlmostDone);
    var log1 := Append(log, StatusData, reason);
    LetterStep(max, d, log1, LF, HeaderFieldStart);
    if reason == [] {
      NoReasonStep(max, f, log);
      LeadsLine(max, f, log, d, log1, e, log1);
      assert reason + CRLF == CRLF;
    } else {
      var g, logG := f.(nread := f.nread + 1, state := ResStatus, index := 0), Append(log, StatusData, [reason[0]]);
      ReasonFirstStep(max, f, log, reason[0]);
      LeadsByte(max, f, log, reason[0], g, logG);
      AppendEnds(log, StatusData, [reason[0]]);
      ReasonRest(max, g, logG, reason[1..]);
      AppendTwice(log, StatusData, [reason[0]], reason[1..]);
      assert [reason[0]] + reason[1..] == reason;
      var h := g.(nread := f.nread + |reason|);
      LeadsThen(max, f, log, [reason[0]], g, logG, reason[1..], h, log1);
      ReasonEndStep(max, h, log1);
      LeadsLine(max, h, log1, d, log1, e, log1);
      LeadsThen(max, f, log, reason, h, log1, CRLF, e, log1);
    }
  }

  // A status line gives the version and the status of the message: the number that its code
  // stands for.
  lemma StatusLineRun(max: nat, f: Fields, log: Log, l: StatusLine) returns (g: Fields, log1: Log)
    requires f.state.StartRes? && StatusLineOk(l) && f.nread + |StatusLineText(l)| <= max
    ensures Leads(max, f, log, StatusLineText(l), g, log1)
    ensures log1 == Append(Snoc(log, Notify(MessageBegin)), StatusData, l.reason)
    ensures g == f.(flags := NO_FLAGS, contentLength := NO_LENGTH, status := DecNumeral(0, l.code), index := 0,
                    nread := f.nread + |StatusLineText(l)|, state := HeaderFieldStart,
                    major := l.major as int - '0' as int, minor := l.minor as int - '0' as int)
  {
    hide Leads, Append, DecNumeral, Step;
    var d, c := [l.major, '.', l.minor], l.code + [' '];
    var logB := Snoc(log, Notify(MessageBegin));
    log1 := Append(logB, StatusData, l.reason);
    ProtocolRun(max, f, log);
    var a := Fresh(f).(nread := f.nread + 5, state := ResHttpMajor);
    DigitsRun(max, a, logB, l.major, l.minor);
    var b := a.(nread := a.nread + 3, major := l.major as int - '0' as int, minor := l.minor as int - '0' as int,
                state := ResHttpEnd);
    LeadsThen(max, f, log, "HTTP/", a, logB, d, b, logB);
    LetterStep(max, b, logB, ' ', ResFirstStatusCode);
    var s := b.(nread := b.nread + 1, state := ResFirstStatusCode);
    LeadsByte(max, b, logB, ' ', s, logB);
    LeadsThen(max, f, log, "HTTP/" + d, b, logB, [' '], s, logB);
    CodeRun(max, s, logB, l.code);
    var e := s.(nread := s.nread + |c|, status := DecNumeral(0, l.code), state := ResStatusStart);
    LeadsThen(max, f, log, "HTTP/" + d + [' '], s, logB, c, e, logB);
    ReasonRun(max, e, logB, l.reason);
    g := e.(nread := e.nread + |l.reason| + 2, state := HeaderFieldStart, index := 0);
    LeadsThen(max, f, log, "HTTP/" + d + [' '] + c, e, logB, l.reason + CRLF, g, log1);
    assert "HTTP/" + d + [' '] + c + (l.reason + CRLF) == StatusLineText(l);
  }
}
