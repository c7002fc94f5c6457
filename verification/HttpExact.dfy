// What the parser refuses: the parts of a head and of a chunked body that it accepts are
// exactly those that are well formed.
module HttpExact {
  import opened Bytes
  import opened HttpTypes
  import opened HttpHop
  import opened HttpSpec
  import opened HttpFraming
  import opened HttpLines
  import opened HttpNames
  import opened HttpStart
  import opened UrlChars

  predicate Refused(r: RunResult, e: Errno) { r.Failed? && r.err == e }

  lemma FirstRefused(max: nat, f: Fields, log: Log, s: ByteString, e: Errno)
    requires s != [] && Step(max, f, log, s[0]) == ByteResult.Error(e)
    ensures Refused(Run(max, f, log, s), e)
  {
    hide Step;
  }

  lemma Next1(max: nat, f: Fields, log: Log, s: ByteString, g: Fields, log1: Log)
    requires s != [] && Step(max, f, log, s[0]) == Next(g, log1)
    ensures Run(max, f, log, s) == Run(max, g, log1, s[1..])
  {
    hide Step;
  }

  // ---- Targets --------------------------------------------------------------------------------

  predicate NoBreaks(s: ByteString) { ' ' !in s && CR !in s && LF !in s }

  lemma TargetBadStep(max: nat, f: Fields, log: Log, ch: Byte)
    requires IsUrlState(f.state) && f.nread + 1 <= max && ParseUrlChar(f.state, ch).Dead?
    requires ch != ' ' && ch != CR && ch != LF
    ensures Step(max, f, log, ch) == ByteResult.Error(InvalidUrl)
  {
    hide ParseUrlChar, Append, ResponseHop, RequestHop, HeaderHop, BodyHop;
  }

  lemma TargetBadFirst(max: nat, f: Fields, log: Log, ch: Byte)
    requires f.state.ReqSpacesBeforeUrl? && f.nread + 1 <= max && ParseUrlChar(UrlFrom(f.verb), ch).Dead? && ch != ' '
    ensures Step(max, f, log, ch) == ByteResult.Error(InvalidUrl)
  {
    hide ParseUrlChar, Append, ResponseHop, UrlHop, HeaderHop, BodyHop, MethodHop;
  }

  lemma TargetEarlyStep(max: nat, f: Fields, log: Log)
    requires IsUrlState(f.state) && Early(f.state) && f.nread + 1 <= max
    ensures Step(max, f, log, ' ') == ByteResult.Error(InvalidUrl)
  {
    hide ParseUrlChar, Append, ResponseHop, RequestHop, HeaderHop, BodyHop;
  }

  lemma {:induction false} TargetBadRest(max: nat, f: Fields, log: Log, t: ByteString)
    requires IsUrlState(f.state) && f.nread + |t| + 1 <= max && NoBreaks(t)
    requires UrlAfter(f.state, t).Dead? || Early(UrlAfter(f.state, t))
    ensures Refused(Run(max, f, log, t + [' ']), InvalidUrl)
    decreases |t|
  {
    hide Step, ParseUrlChar, Append, Run;
    var s := t + [' '];
    if t == [] {
      TargetEarlyStep(max, f, log);
      assert s[0] == ' ';
      FirstRefused(max, f, log, s, InvalidUrl);
    } else {
      assert s[0] == t[0] && s[1..] == t[1..] + [' '];
      if ParseUrlChar(f.state, t[0]).Dead? {
        TargetBadStep(max, f, log, t[0]);
        FirstRefused(max, f, log, s, InvalidUrl);
      } else {
        TargetStep(max, f, log, t[0]);
        var g := f.(nread := f.nread + 1, state := ParseUrlChar(f.state, t[0]));
        Next1(max, f, log, s, g, Append(log, UrlData, [t[0]]));
        TargetBadRest(max, g, Append(log, UrlData, [t[0]]), t[1..]);
      }
    }
  }

  // A request target is accepted exactly when the URL machine comes to where it can end.
  lemma TargetExact(max: nat, f: Fields, log: Log, t: ByteString)
    requires f.state.ReqSpacesBeforeUrl? && f.nread + |t| + 1 <= max && t != [] && NoBreaks(t)
    ensures var r := Run(max, f, log, t + [' ']);
      if TargetOk(f.verb, t) then r.Consumed? && r.f.state == ReqHttpStart else Refused(r, InvalidUrl)
  {
    hide Step, ParseUrlChar, Append, Run;
    var s := t + [' '];
    if TargetOk(f.verb, t) {
      TargetRun(max, f, log, t);
      LeadsMeans(max, f, log, s, f.(nread := f.nread + |t| + 1, state := ReqHttpStart), Append(log, UrlData, t));
    } else {
      assert s[0] == t[0] && s[1..] == t[1..] + [' '];
      if ParseUrlChar(UrlFrom(f.verb), t[0]).Dead? {
        TargetBadFirst(max, f, log, t[0]);
        FirstRefused(max, f, log, s, InvalidUrl);
      } else {
        TargetFirstStep(max, f, log, t[0]);
        var g := f.(nread := f.nread + 1, state := ParseUrlChar(UrlFrom(f.verb), t[0]));
        Next1(max, f, log, s, g, Append(log, UrlData, [t[0]]));
        TargetBadRest(max, g, Append(log, UrlData, [t[0]]), t[1..]);
      }
    }
  }

  lemma LeadsMeans(max: nat, f: Fields, log: Log, s: ByteString, g: Fields, log1: Log)
    requires Leads(max, f, log, s, g, log1)
    ensures Run(max, f, log, s) == Consumed(g, log1)
  {
  }

  // ---- Versions -----------------------------------------------------------------------------------

  lemma VersionBadStep(max: nat, f: Fields, log: Log, ch: Byte)
    requires f.nread + 1 <= max
    ensures (f.state.ReqHttpMajor? || f.state.ResHttpMajor?) && !IsNum(ch) ==>
              Step(max, f, log, ch) == ByteResult.Error(InvalidVersion)
    ensures (f.state.ReqHttpMinor? || f.state.ResHttpMinor?) && !IsNum(ch) ==>
              Step(max, f, log, ch) == ByteResult.Error(InvalidVersion)
    ensures (f.state.ReqHttpDot? || f.state.ResHttpDot?) && ch != '.' ==>
              Step(max, f, log, ch) == ByteResult.Error(InvalidVersion)
    ensures f.state.ReqHttpEnd? && ch != CR && ch != LF ==> Step(max, f, log, ch) == ByteResult.Error(InvalidVersion)
    ensures f.state.ResHttpEnd? && ch != ' ' ==> Step(max, f, log, ch) == ByteResult.Error(InvalidVersion)
  {
    hide Append, HeaderHop, BodyHop, UrlHop, MethodHop;
  }

  // Of three bytes a version is accepted exactly when they are a digit, a dot and a digit.
  lemma VersionExact(max: nat, f: Fields, log: Log, a: Byte, b: Byte, c: Byte)
    requires (f.state.ReqHttpMajor? || f.state.ResHttpMajor?) && f.nread + 3 <= max
    ensures var r := Run(max, f, log, [a, b, c]);
      if IsNum(a) && b == '.' && IsNum(c)
      then r.Consumed? && r.f.major == a as int - '0' as int && r.f.minor == c as int - '0' as int
      else Refused(r, InvalidVersion)
  {
    hide Step, Run;
    var s: ByteString := [a, b, c];
    if IsNum(a) && b == '.' && IsNum(c) {
      DigitsRun(max, f, log, a, c);
      LeadsMeans(max, f, log, s,
                 f.(nread := f.nread + 3, major := a as int - '0' as int, minor := c as int - '0' as int,
                    state := if f.state.ReqHttpMajor? then ReqHttpEnd else ResHttpEnd), log);
    } else {
      VersionBad(max, f, log, s);
    }
  }

  lemma VersionBad(max: nat, f: Fields, log: Log, s: ByteString)
    requires (f.state.ReqHttpMajor? || f.state.ResHttpMajor?) && f.nread + 3 <= max && |s| == 3
    requires !IsNum(s[0]) || s[1] != '.' || !IsNum(s[2])
    ensures Refused(Run(max, f, log, s), InvalidVersion)
  {
    hide Step, Run, Letter;
    var dot := if f.state.ReqHttpMajor? then ReqHttpDot else ResHttpDot;
    var minor := if f.state.ReqHttpMajor? then ReqHttpMinor else ResHttpMinor;
    VersionBadStep(max, f, log, s[0]);
    if !IsNum(s[0]) {
      FirstRefused(max, f, log, s, InvalidVersion);
    } else {
      MajorStep(max, f, log, s[0]);
      var g := f.(nread := f.nread + 1, major := s[0] as int - '0' as int, state := dot);
      Next1(max, f, log, s, g, log);
      VersionBadStep(max, g, log, s[1]);
      if s[1] != '.' {
        FirstRefused(max, g, log, s[1..], InvalidVersion);
      } else {
        DotLetter();
        LetterStep(max, g, log, '.', minor);
        var h := g.(nread := g.nread + 1, state := minor);
        Next1(max, g, log, s[1..], h, log);
        VersionBadStep(max, h, log, s[2]);
        FirstRefused(max, h, log, s[1..][1..], InvalidVersion);
      }
    }
  }

  lemma DotLetter()
    ensures Letter(ReqHttpDot, '.', ReqHttpMinor) && Letter(ResHttpDot, '.', ResHttpMinor)
  {
  }

  // ---- Protocol names ------------------------------------------------------------------------------

  // In the states between the letters of a protocol name any other byte is refused.
  lemma LetterExact(max: nat, f: Fields, log: Log, c: Byte, next: State, ch: Byte)
    requires Letter(f.state, c, next) && ch != c && f.nread + 1 <= max
    requires !f.state.ReqHttpStart? && !(f.state.ReqHttpEnd? && ch == LF)
    ensures Step(max, f, log, ch).Error?
  {
    hide Append, HeaderHop, BodyHop, UrlHop, MethodHop, RequestHop, ResponseHop, RequestLetter, ResponseLetter,
      IsRequestState, IsResponseState;
    if RequestLetter(f.state, c, next) {
      RequestLetterOnly(f.(nread := f.nread + 1), c, next, ch);
      RequestQuiet(f.state);
    } else {
      ResponseLetterOnly(f.(nread := f.nread + 1), c, next, ch);
      ResponseQuiet(f.state);
    }
  }

  lemma RequestLetterOnly(f: Fields, c: Byte, next: State, ch: Byte)
    requires RequestLetter(f.state, c, next) && ch != c && !f.state.ReqHttpStart? && !(f.state.ReqHttpEnd? && ch == LF)
    ensures IsRequestState(f.state) && !IsResponseState(f.state) && RequestHop(f, ch).flow.Fail?
  {
    hide MethodHop, FirstCandidate, UrlStep, IsAlpha, IsNum, Fresh;
  }

  lemma ResponseLetterOnly(f: Fields, c: Byte, next: State, ch: Byte)
    requires ResponseLetter(f.state, c, next) && ch != c
    ensures IsResponseState(f.state) && !f.state.ResStatus? && ResponseHop(f, ch).flow.Fail?
  {
    hide IsNum, Digit, Fresh;
  }

  // Before the protocol name spaces are skipped, and nothing but its first letter is accepted.
  lemma ProtocolExact(max: nat, f: Fields, log: Log, ch: Byte)
    requires f.nread + 1 <= max
    ensures f.state.ReqHttpStart? && ch != ' ' && ch != 'H' && ch != 'I' ==>
              Step(max, f, log, ch) == ByteResult.Error(InvalidConstant)
    ensures f.state.StartRes? && ch != CR && ch != LF && ch != 'H' ==>
              Step(max, f, log, ch) == ByteResult.Error(InvalidConstant)
  {
    hide Append, HeaderHop, BodyHop, UrlHop, MethodHop;
  }

  // ---- Header names ----------------------------------------------------------------------------------

  lemma NameBadStep(max: nat, f: Fields, log: Log, ch: Byte)
    requires f.nread + 1 <= max && Token(ch) == '\0' && ch != CR && ch != LF
    ensures f.state.HeaderFieldStart? ==> Step(max, f, log, ch) == ByteResult.Error(InvalidHeaderToken)
    ensures f.state.HeaderField? && ch != ':' ==> Step(max, f, log, ch) == ByteResult.Error(InvalidHeaderToken)
  {
    hide Append, ResponseHop, RequestHop, UrlHop, BodyHop, FieldNext, Token;
  }

  // The bytes of a name: up to a colon all are token bytes.
  lemma NameExact(max: nat, f: Fields, log: Log, w: ByteString, k: nat, rest: ByteString)
    requires f.state.HeaderFieldStart? && k < |w| && f.nread + k + 1 <= max
    requires (forall i :: 0 <= i < k ==> Token(w[i]) != '\0') && Token(w[k]) == '\0'
    requires w[k] != ':' && w[k] != CR && w[k] != LF
    ensures Refused(Run(max, f, log, w + rest), InvalidHeaderToken)
  {
    hide Step, Run, Token, Tracks, Lowered, Append;
    var s := w + rest;
    if k == 0 {
      NameBadStep(max, f, log, w[0]);
      FirstRefused(max, f, log, s, InvalidHeaderToken);
    } else {
      var name := w[..k];
      HeaderRecognised(max, f, log, name);
      var r := Run(max, f, log, name);
      RunLeads(max, f, log, name, r.f, r.log);
      NameBadStep(max, r.f, r.log, w[k]);
      var more := w[k..] + rest;
      assert more[0] == w[k] && name + more == s;
      FirstRefused(max, r.f, r.log, more, InvalidHeaderToken);
      LeadsInto(max, f, log, name, r.f, r.log, more);
    }
  }

  // ---- Header values ---------------------------------------------------------------------------------

  // In a value no byte that is none of a header is accepted, unless the parser is lenient.
  lemma ValueExact(max: nat, f: Fields, log: Log, ch: Byte)
    requires f.state.HeaderValue? && !f.lenient && f.nread + 1 <= max && !IsHeaderChar(ch)
    ensures Step(max, f, log, ch) == ByteResult.Error(InvalidHeaderToken)
  {
    hide Append, ResponseHop, RequestHop, UrlHop, BodyHop, IsHeaderChar;
    assert ch != CR && ch != LF by {
      BreaksAllowed();
    }
  }

  lemma BreaksAllowed()
    ensures IsHeaderChar(CR) && IsHeaderChar(LF)
  {
  }

  // Behind chunked and any spaces another byte makes it another coding.
  lemma CodingOver(max: nat, f: Fields, log: Log, ch: Byte)
    requires f.state.HeaderValue? && f.hstate.TransferEncodingChunked? && f.nread + 1 <= max && InValue(ch) && ch != ' '
    ensures Step(max, f, log, ch) == Next(f.(nread := f.nread + 1, hstate := General), Append(log, ValueData, [ch]))
    ensures !WithHeaderFlag(f.(nread := f.nread + 1, hstate := General)).flags.chunked || f.flags.chunked
  {
    hide Append, ResponseHop, RequestHop, UrlHop, BodyHop, Lower, IsHeaderChar;
  }

  // ---- Chunk sizes --------------------------------------------------------------------------------------

  lemma SizeBadStep(max: nat, f: Fields, log: Log, ch: Byte)
    requires f.flags.chunked && f.nread + 1 <= max && Unhex(ch) == -1
    ensures f.state.ChunkSizeStart? && f.nread == 0 ==> Step(max, f, log, ch) == ByteResult.Error(InvalidChunkSize)
    ensures f.state.ChunkSize? && ch != CR && ch != ';' && ch != ' ' ==>
              Step(max, f, log, ch) == ByteResult.Error(InvalidChunkSize)
  {
    hide Append, ResponseHop, RequestHop, UrlHop, HeaderHop, Unhex;
  }

  // A chunk size is refused at the first byte that is no hexadecimal digit, unless an
  // extension or the end of the line begins there.
  lemma SizeExact(max: nat, f: Fields, log: Log, w: ByteString, k: nat, rest: ByteString)
    requires f.state.ChunkSizeStart? && f.flags.chunked && f.nread == 0 && k < |w| && k + 1 <= max
    requires (forall i :: 0 <= i < k ==> Unhex(w[i]) != -1) && Unhex(w[k]) == -1
    requires k > 0 ==> HexNumeral(0, w[..k]) <= MAX_HEX && w[k] != CR && w[k] != ';' && w[k] != ' '
    ensures Refused(Run(max, f, log, w + rest), InvalidChunkSize)
  {
    hide Step, Run, Unhex, HexNumeral, Leads;
    var s := w + rest;
    if k == 0 {
      SizeBadStep(max, f, log, w[0]);
      FirstRefused(max, f, log, s, InvalidChunkSize);
    } else {
      var ds := w[..k];
      SizeFirst(max, f, log, ds);
      var g := f.(state := ChunkSize, nread := |ds|, contentLength := HexNumeral(0, ds));
      SizeBadStep(max, g, log, w[k]);
      var more := w[k..] + rest;
      assert more[0] == w[k] && ds + more == s;
      FirstRefused(max, g, log, more, InvalidChunkSize);
      LeadsInto(max, f, log, ds, g, log, more);
    }
  }

  // The line ends of a chunk are just carriage return and line feed.
  lemma ChunkEndExact(max: nat, f: Fields, log: Log, ch: Byte)
    requires f.flags.chunked && f.nread + 1 <= max
    ensures f.state.ChunkSizeAlmostDone? && ch != LF ==> Step(max, f, log, ch).Error?
    ensures f.state.ChunkDataAlmostDone? && f.contentLength == 0 && ch != CR ==> Step(max, f, log, ch).Error?
    ensures f.state.ChunkDataDone? && ch != LF ==> Step(max, f, log, ch).Error?
  {
    hide Append, ResponseHop, RequestHop, UrlHop, HeaderHop, Unhex;
  }

  // ---- Lengths -----------------------------------------------------------------------------------------------

  lemma LengthBadStep(max: nat, f: Fields, log: Log, ch: Byte)
    requires f.nread + 1 <= max && InValue(ch) && !IsNum(ch) && ch != ' '
    ensures AtLength(f) && ch != '\t' ==> Step(max, f, log, ch) == ByteResult.Error(InvalidContentLength)
    ensures InLength(f) ==> Step(max, f, log, ch) == ByteResult.Error(InvalidContentLength)
  {
    hide Append, ResponseHop, RequestHop, UrlHop, BodyHop, ValueMatch, ValueStartState, Lower, IsHeaderChar;
  }
}
