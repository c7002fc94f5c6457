// The incremental recognisers of http_parser_execute: a method token and a header
// name, read a byte at a time and in any number of pieces, are recognised exactly
// when the whole string equals a known one.
module HttpNames {
  import opened Bytes
  import opened HttpTypes
  import opened HttpHop
  import opened HttpSpec
  import opened HttpSplit
  import opened HttpFraming

  // ---- Methods ---------------------------------------------------------------------

  // The candidate that t replaces in the switch, and the position at which it does.
  function Parent(t: Method): Option<(Method, nat)> {
    match t
    case PUT => Some((POST, 1)) case PATCH => Some((POST, 1)) case PROPFIND => Some((POST, 1))
    case PURGE => Some((PUT, 2)) case PROPPATCH => Some((PROPFIND, 4))
    case CHECKOUT => Some((CONNECT, 1)) case COPY => Some((CONNECT, 2))
    case MOVE => Some((MKCOL, 1)) case MERGE => Some((MKCOL, 1)) case MSEARCH => Some((MKCOL, 1))
    case MKACTIVITY => Some((MKCOL, 2)) case MKCALENDAR => Some((MKCOL, 3))
    case SEARCH => Some((SUBSCRIBE, 1)) case SOURCE => Some((SUBSCRIBE, 1))
    case REBIND => Some((REPORT, 2)) case LINK => Some((LOCK, 1))
    case UNSUBSCRIBE => Some((UNLOCK, 2)) case UNBIND => Some((UNLOCK, 2)) case UNLINK => Some((UNLOCK, 3))
    case _ => None
  }

  predicate Agree(a: string, b: string, i: nat) {
    i <= |a| && i <= |b| && forall j :: 0 <= j < i ==> a[j] == b[j]
  }

  lemma RootFacts(t: Method)
    requires Parent(t).None?
    ensures MethodName(t) != [] && FirstCandidate(MethodName(t)[0]) == Some(t)
  {
  }

  lemma ParentAgrees(t: Method)
    requires Parent(t).Some?
    ensures var (p, i) := Parent(t).value; Agree(MethodName(p), MethodName(t), i)
  {
  }

  lemma ParentSwitches(t: Method)
    requires Parent(t).Some?
    ensures var (p, i) := Parent(t).value;
      && 1 <= i < |MethodName(t)| && i < |MethodName(p)| && MethodName(p)[i] != MethodName(t)[i]
      && NextCandidate(p, i, MethodName(t)[i]) == Some(t)
      && (Parent(p).Some? ==> Parent(p).value.1 < i)
  {
  }

  lemma SwitchHasParent(m: Method, i: nat, ch: Byte)
    requires NextCandidate(m, i, ch).Some?
    ensures Parent(NextCandidate(m, i, ch).value) == Some((m, i))
  {
  }

  lemma EarlyMatches(m: Method, i: nat, ch: Byte)
    requires IsEarly(m) && NextCandidate(m, i, ch).Some?
    ensures var t := NextCandidate(m, i, ch).value; i < |MethodName(t)| && MethodName(t)[i] == ch
  {
  }

  lemma LateMatches(m: Method, i: nat, ch: Byte)
    requires !IsEarly(m) && NextCandidate(m, i, ch).Some?
    ensures var t := NextCandidate(m, i, ch).value; i < |MethodName(t)| && MethodName(t)[i] == ch
  {
  }

  lemma SwitchMatches(m: Method, i: nat, ch: Byte)
    requires NextCandidate(m, i, ch).Some?
    ensures var t := NextCandidate(m, i, ch).value; i < |MethodName(t)| && MethodName(t)[i] == ch
  {
    hide NextCandidate, MethodName;
    if IsEarly(m) {
      EarlyMatches(m, i, ch);
    } else {
      LateMatches(m, i, ch);
    }
  }

  lemma FirstLetter(ch: Byte)
    requires FirstCandidate(ch).Some?
    ensures var t := FirstCandidate(ch).value;
      MethodName(t) != [] && MethodName(t)[0] == ch && IsAlpha(ch) && Parent(t).None?
  {
  }

  // The roots of the switch, and the names that replace them.
  lemma RootLetters(m: Method, i: nat)
    requires Parent(m).None? && i < |MethodName(m)|
    ensures MethodName(m)[i] != ' ' && MethodName(m)[i] != '\0'
  {
  }

  lemma OtherLetters(m: Method, i: nat)
    requires Parent(m).Some? && i < |MethodName(m)|
    ensures MethodName(m)[i] != ' ' && MethodName(m)[i] != '\0'
  {
  }

  lemma NoSpace(m: Method, i: nat)
    ensures i < |MethodName(m)| ==> MethodName(m)[i] != ' ' && MethodName(m)[i] != '\0'
    ensures NextCandidate(m, i, ' ').None?
  {
    hide MethodName, Parent;
    if i < |MethodName(m)| {
      if Parent(m).None? {
        RootLetters(m, i);
      } else {
        OtherLetters(m, i);
      }
    }
  }

  lemma FirstStep(max: nat, f: Fields, log: Log, ch: Byte)
    requires f.state.StartReq? && f.nread + 1 <= max && ch != CR && ch != LF
    ensures Step(max, f, log, ch)
         == match FirstCandidate(ch)
            case None => ByteResult.Error(InvalidMethod)
            case Some(m) => Next(Fresh(f).(verb := m, index := 1, nread := f.nread + 1, state := ReqMethod),
                                 Snoc(log, Notify(MessageBegin)))
  {
    hide FirstCandidate, Append, ResponseHop, UrlHop, HeaderHop, BodyHop, MethodHop;
    if FirstCandidate(ch).Some? {
      FirstLetter(ch);
    }
  }

  lemma MethodStep(max: nat, f: Fields, log: Log, ch: Byte)
    requires f.state.ReqMethod? && f.nread + 1 <= max && f.index <= |MethodName(f.verb)| && ch != ' '
    ensures var g := f.(index := f.index + 1, nread := f.nread + 1);
      Step(max, f, log, ch)
      == if ch == '\0' then ByteResult.Error(InvalidMethod)
         else if f.index < |MethodName(f.verb)| && ch == MethodName(f.verb)[f.index] then Next(g, log)
         else match NextCandidate(f.verb, f.index, ch)
           case None => ByteResult.Error(InvalidMethod)
           case Some(m) => Next(g.(verb := m), log)
  {
    hide MethodName, NextCandidate, Append, ResponseHop, UrlHop, HeaderHop, BodyHop;
  }

  lemma MethodEndStep(max: nat, f: Fields, log: Log)
    requires f.state.ReqMethod? && f.nread + 1 <= max && f.index <= |MethodName(f.verb)|
    ensures Step(max, f, log, ' ')
         == if f.index < |MethodName(f.verb)| then ByteResult.Error(InvalidMethod)
            else Next(f.(index := f.index + 1, nread := f.nread + 1, state := ReqSpacesBeforeUrl), log)
  {
    hide MethodName, NextCandidate, Append, ResponseHop, UrlHop, HeaderHop, BodyHop;
    NoSpace(f.verb, f.index);
  }

  // However the input is split, the bytes of the token so far are the first bytes of
  // the current candidate, as many as the index says.
  lemma {:induction false} CandidatePrefix(max: nat, f: Fields, log: Log, seen: ByteString, s: ByteString)
    requires f.state.ReqMethod? && f.nread + |s| <= max && ' ' !in s
    requires f.index == |seen| && seen <= MethodName(f.verb)
    ensures var r := Run(max, f, log, s);
      && (r.Consumed? ==>
           && r.log == log && r.f == f.(verb := r.f.verb, index := |seen + s|, nread := f.nread + |s|)
           && seen + s <= MethodName(r.f.verb))
      && (!r.Consumed? ==> r.Failed? && r.err == InvalidMethod)
    decreases |s|
  {
    hide Step, MethodName, NextCandidate;
    if s == [] {
      assert seen + s == seen;
    } else {
      var ch, i := s[0], f.index;
      MethodStep(max, f, log, ch);
      var r := Step(max, f, log, ch);
      if r.Next? {
        assert seen + [ch] <= MethodName(r.f.verb) by {
          if r.f.verb != f.verb || i == |MethodName(f.verb)| || ch != MethodName(f.verb)[i] {
            SwitchHasParent(f.verb, i, ch);
            SwitchMatches(f.verb, i, ch);
            ParentAgrees(r.f.verb);
          }
        }
        CandidatePrefix(max, r.f, log, seen + [ch], s[1..]);
        assert seen + [ch] + s[1..] == seen + s;
      }
    }
  }

  function Position(t: Method): nat {
    match Parent(t) case None => 0 case Some((_, i)) => i
  }

  // On the bytes of a method's name the switch finds that method: after k bytes, k
  // beyond the position at which it replaces its parent, it is the candidate.
  lemma {:induction false} MethodRun(max: nat, f: Fields, log: Log, t: Method, w: ByteString) returns (g: Fields)
    requires f.state.StartReq? && f.nread + |w| <= max && Position(t) < |w| && w <= MethodName(t)
    ensures g == Fresh(f).(verb := t, index := |w|, nread := f.nread + |w|, state := ReqMethod)
    ensures Leads(max, f, log, w, g, Snoc(log, Notify(MessageBegin)))
    decreases |w|
  {
    hide Step, MethodName, NextCandidate, FirstCandidate, Parent, Leads;
    var n := |w| - 1;
    var log' := Snoc(log, Notify(MessageBegin));
    g := Fresh(f).(verb := t, index := |w|, nread := f.nread + |w|, state := ReqMethod);
    if n == 0 {
      if Parent(t).Some? {
        ParentSwitches(t);
      }
      RootFacts(t);
      NotLineEnd(w[0]);
      FirstStep(max, f, log, w[0]);
      LeadsByte(max, f, log, w[0], g, log');
      assert w == [w[0]];
    } else {
      var v, h := w[..n], f;
      if n == Position(t) {
        ParentSwitches(t);
        ParentAgrees(t);
        h := MethodRun(max, f, log, Parent(t).value.0, v);
      } else {
        h := MethodRun(max, f, log, t, v);
      }
      NoSpace(t, n);
      MethodStep(max, h, log', w[n]);
      LeadsByte(max, h, log', w[n], g, log');
      LeadsThen(max, f, log, v, h, log', [w[n]], g, log');
      assert v + [w[n]] == w;
    }
  }

  lemma NotLineEnd(ch: Byte)
    requires FirstCandidate(ch).Some?
    ensures ch != CR && ch != LF
  {
  }

  // A token is accepted exactly when it is the name of a method, and then that method
  // is the one recorded; any other token is an invalid method.
  lemma MethodRecognised(max: nat, f: Fields, log: Log, w: ByteString)
    requires f.state.StartReq? && f.nread + |w| + 1 <= max
    requires w != [] && ' ' !in w && w[0] != CR && w[0] != LF
    ensures var r := Run(max, f, log, w + [' ']);
      && (r.Consumed? <==> exists m :: MethodName(m) == w)
      && (r.Consumed? ==> MethodName(r.f.verb) == w && r.f.state == ReqSpacesBeforeUrl && r.f.ty == f.ty)
      && (!r.Consumed? ==> r.Failed? && r.err == InvalidMethod)
  {
    hide Step, MethodName, FirstCandidate, NextCandidate, Parent, Position;
    RunSplit(max, f, log, w, [' ']);
    TokenSound(max, f, log, w);
    forall m | MethodName(m) == w ensures Run(max, f, log, w).Consumed? && Run(max, f, log, w).f.verb == m {
      PositionInside(m);
      var g := MethodRun(max, f, log, m, w);
    }
    var r := Run(max, f, log, w);
    if r.Consumed? {
      MethodEndStep(max, r.f, r.log);
      var one: ByteString := [' '];
      assert one[0] == ' ' && one[1..] == [];
    }
  }

  lemma PositionInside(m: Method)
    ensures Position(m) < |MethodName(m)|
  {
    hide MethodName, NextCandidate, FirstCandidate;
    if Parent(m).Some? {
      ParentSwitches(m);
    } else {
      RootFacts(m);
    }
  }

  lemma TokenSound(max: nat, f: Fields, log: Log, w: ByteString)
    requires f.state.StartReq? && f.nread + |w| <= max
    requires w != [] && ' ' !in w && w[0] != CR && w[0] != LF
    ensures var r := Run(max, f, log, w);
      && (r.Consumed? ==> && r.f.state.ReqMethod? && r.f.index == |w| && w <= MethodName(r.f.verb)
                          && r.f.nread == f.nread + |w| && r.f.ty == f.ty)
      && (!r.Consumed? ==> r.Failed? && r.err == InvalidMethod)
  {
    hide Step, MethodName, FirstCandidate, NextCandidate;
    FirstStep(max, f, log, w[0]);
    var r := Step(max, f, log, w[0]);
    if r.Next? {
      FirstLetter(w[0]);
      assert [w[0]] <= MethodName(r.f.verb);
      CandidatePrefix(max, r.f, r.log, [w[0]], w[1..]);
      assert [w[0]] + w[1..] == w;
    }
  }

  // ---- A method or a version ----------------------------------------------------------

  predicate InVersion(s: State) {
    s.ResHT? || s.ResHTT? || s.ResHTTP? || s.ResHttpMajor? || s.ResHttpDot? || s.ResHttpMinor? || s.ResHttpEnd?
  }

  lemma EitherStep(max: nat, f: Fields, log: Log, ch: Byte)
    requires f.state.StartReqOrRes? && f.nread + 1 <= max && ch != CR && ch != LF
    ensures Step(max, f, log, ch)
         == if ch == 'H' then
              Next(Fresh(f).(nread := f.nread + 1, state := ResOrRespH), Snoc(log, Notify(MessageBegin)))
            else Step(max, f.(ty := HttpRequest, state := StartReq), log, ch)
  {
    hide FirstCandidate, Append, UrlHop, HeaderHop, BodyHop, MethodHop, Chain;
    var g := f.(nread := f.nread + 1);
    EitherChain(g, log, ch);
    FreshChain(g.(ty := HttpRequest, state := StartReq), log, ch);
  }

  lemma EitherChain(f: Fields, log: Log, ch: Byte)
    requires f.state.StartReqOrRes? && ch != CR && ch != LF
    ensures Chain(f, log, ch)
         == if ch == 'H' then Next(Fresh(f).(state := ResOrRespH), Snoc(log, Notify(MessageBegin)))
            else Chain(Fresh(f).(ty := HttpRequest, state := StartReq), log, ch)
  {
    hide Append, RequestHop, UrlHop, HeaderHop, BodyHop;
  }

  lemma FreshChain(f: Fields, log: Log, ch: Byte)
    requires f.state.StartReq? && ch != CR && ch != LF
    ensures Chain(Fresh(f), log, ch) == Chain(f, log, ch)
  {
    hide FirstCandidate, Append, UrlHop, HeaderHop, BodyHop, MethodHop;
    FreshRank(f, ch);
  }

  lemma FreshRank(f: Fields, ch: Byte)
    requires f.state.StartReq? && ch != CR && ch != LF
    ensures !Switch(f, ch).flow.Again?
  {
    hide FirstCandidate, MethodHop;
  }

  lemma SecondStep(max: nat, f: Fields, log: Log, ch: Byte)
    requires f.state.ResOrRespH? && f.nread + 1 <= max
    ensures Step(max, f, log, ch)
         == if ch == 'T' then Next(f.(ty := HttpResponse, nread := f.nread + 1, state := ResHT), log)
            else if ch == 'E' then
              Next(f.(ty := HttpRequest, verb := HEAD, index := 2, nread := f.nread + 1, state := ReqMethod), log)
            else ByteResult.Error(InvalidConstant)
  {
    hide Append, UrlHop, HeaderHop, BodyHop, RequestHop;
  }

  lemma VersionStep(max: nat, f: Fields, log: Log, ch: Byte)
    requires InVersion(f.state) && f.nread + 1 <= max
    ensures var r := Step(max, f, log, ch);
      r.Error? || (r.Next? && r.f.nread == f.nread + 1
                   && if ch == ' ' then r.f.state.ResFirstStatusCode? else InVersion(r.f.state))
  {
    hide Append, UrlHop, HeaderHop, BodyHop, RequestHop;
  }

  lemma {:induction false} VersionRun(max: nat, f: Fields, log: Log, v: ByteString)
    requires InVersion(f.state) && f.nread + |v| + 1 <= max && ' ' !in v
    ensures var r := Run(max, f, log, v + [' ']); r.Failed? || (r.Consumed? && r.f.state.ResFirstStatusCode?)
    decreases |v|
  {
    hide Step, InVersion;
    if v == [] {
      assert v + [' '] == [' '] && [' '][1..] == [];
      VersionStep(max, f, log, ' ');
    } else {
      VersionStep(max, f, log, v[0]);
      var r := Step(max, f, log, v[0]);
      assert (v + [' '])[0] == v[0] && (v + [' '])[1..] == v[1..] + [' '];
      if r.Next? {
        VersionRun(max, r.f, r.log, v[1..]);
      }
    }
  }

  lemma OnlyHead(m: Method)
    ensures MethodName(m)[0] == 'H' <==> m == HEAD
  {
  }

  lemma HeadIs()
    ensures MethodName(HEAD) == "HEAD"
  {
  }

  // What follows "HE".
  lemma HeadRun(max: nat, f: Fields, log: Log, v: ByteString)
    requires f.state.ReqMethod? && f.verb == HEAD && f.index == 2 && f.nread + |v| + 1 <= max && ' ' !in v
    ensures var r := Run(max, f, log, v + [' ']);
      && (r.Consumed? <==> v == "AD")
      && (r.Consumed? ==> r.f.verb == HEAD && r.f.ty == f.ty && r.f.state == ReqSpacesBeforeUrl)
      && (!r.Consumed? ==> r.Failed? && r.err == InvalidMethod)
  {
    hide Step, MethodName, NextCandidate;
    HeadIs();
    RunSplit(max, f, log, v, [' ']);
    CandidatePrefix(max, f, log, "HE", v);
    var r := Run(max, f, log, v);
    if v == "AD" {
      var g, h := f.(index := 3, nread := f.nread + 1), f.(index := 4, nread := f.nread + 2);
      MethodStep(max, f, log, 'A');
      MethodStep(max, g, log, 'D');
      assert v[1..] == ['D'] && v[1..][1..] == [];
      assert Run(max, h, log, []) == Consumed(h, log);
      assert Run(max, g, log, v[1..]) == Consumed(h, log);
    }
    if r.Consumed? {
      assert ("HE" + v)[0] == MethodName(r.f.verb)[0];
      OnlyHead(r.f.verb);
      assert "HE" + v <= "HEAD";
      MethodEndStep(max, r.f, r.log);
      var one: ByteString := [' '];
      assert one[0] == ' ' && one[1..] == [];
      if |v| == 2 {
        assert v[0] == ("HE" + v)[2] && v[1] == ("HE" + v)[3];
        assert v == "AD";
      }
    }
  }

  // A parser for either kind of message: a token is accepted as a method exactly when it
  // is the name of one, and a response is expected only after "HT".
  lemma EitherRecognised(max: nat, f: Fields, log: Log, w: ByteString)
    requires f.state.StartReqOrRes? && f.nread + |w| + 1 <= max
    requires w != [] && ' ' !in w && w[0] != CR && w[0] != LF
    ensures var r := Run(max, f, log, w + [' ']);
      && (r.Consumed? && r.f.state == ReqSpacesBeforeUrl <==> exists m :: MethodName(m) == w)
      && (r.Consumed? && r.f.state == ReqSpacesBeforeUrl ==> MethodName(r.f.verb) == w && r.f.ty == HttpRequest)
      && (r.Consumed? && r.f.state != ReqSpacesBeforeUrl ==> r.f.state == ResFirstStatusCode && "HT" <= w)
      && (!r.Consumed? ==> r.Failed?)
  {
    hide Step, MethodName, FirstCandidate, NextCandidate;
    var s := w + [' '];
    EitherStep(max, f, log, w[0]);
    assert s[0] == w[0];
    if w[0] != 'H' {
      var g := f.(ty := HttpRequest, state := StartReq);
      assert Run(max, f, log, s) == Run(max, g, log, s);
      MethodRecognised(max, g, log, w);
    } else {
      HeadOnly(w);
      var g, log' := Fresh(f).(nread := f.nread + 1, state := ResOrRespH), Snoc(log, Notify(MessageBegin));
      SecondStep(max, g, log', s[1]);
      assert s[1..][0] == s[1];
      if w == ['H'] {
        assert s[1] == ' ';
      } else {
        assert s[1] == w[1] && s[1..][1..] == w[2..] + [' '];
        var r := Step(max, g, log', w[1]);
        if w[1] == 'T' {
          assert InVersion(r.f.state);
          VersionRun(max, r.f, log', w[2..]);
        } else if w[1] == 'E' {
          HeadRun(max, r.f, log', w[2..]);
        }
      }
    }
  }

  lemma HeadOnly(w: ByteString)
    requires w != [] && w[0] == 'H'
    ensures (exists m :: MethodName(m) == w) <==> |w| > 2 && w[1] == 'E' && w[2..] == "AD"
    ensures (exists m :: MethodName(m) == w) <==> MethodName(HEAD) == w
  {
    hide MethodName;
    HeadIs();
    forall m | MethodName(m) == w ensures m == HEAD {
      OnlyHead(m);
    }
    assert |w| > 2 && w[1] == 'E' && w[2..] == "AD" ==> w == "HEAD";
  }

  // ---- Header names -----------------------------------------------------------------

  // The lower-cased name.
  function Lowered(w: ByteString): ByteString {
    if w == [] then [] else [Token(w[0])] + Lowered(w[1..])
  }

  predicate Known(w: string) {
    w <= CONNECTION || w <= PROXY_CONNECTION || w <= CONTENT_LENGTH || w <= TRANSFER_ENCODING || w <= UPGRADE
  }

  // What the matcher's state says of the lower-cased bytes w read so far.
  predicate Tracks(h: HeaderState, i: nat, w: string) {
    match h
    case General => !Known(w)
    case C => w == CONNECTION[..1] && i == 0
    case CO => w == CONNECTION[..2] && i == 1
    case CON => w == CONNECTION[..3] && i == 2
    case MatchingConnection => w < CONNECTION && i + 1 == |w| && 4 <= |w|
    case MatchingContentLength => w < CONTENT_LENGTH && i + 1 == |w| && 4 <= |w|
    case MatchingProxyConnection => w < PROXY_CONNECTION && i + 1 == |w| && 1 <= |w|
    case MatchingTransferEncoding => w < TRANSFER_ENCODING && i + 1 == |w| && 1 <= |w|
    case MatchingUpgrade => w < UPGRADE && i + 1 == |w| && 1 <= |w|
    case Connection => w == CONNECTION || w == PROXY_CONNECTION
    case ContentLength => w == CONTENT_LENGTH
    case TransferEncoding => w == TRANSFER_ENCODING
    case Upgrade => w == UPGRADE
    case _ => false
  }

  lemma WordLetters()
    ensures CONNECTION[0] == 'c' && CONNECTION[1] == 'o' && CONNECTION[2] == 'n' && CONNECTION[3] == 'n'
    ensures CONTENT_LENGTH[0] == 'c' && CONTENT_LENGTH[1] == 'o' && CONTENT_LENGTH[2] == 'n'
    ensures CONTENT_LENGTH[3] == 't'
    ensures PROXY_CONNECTION[0] == 'p' && TRANSFER_ENCODING[0] == 't' && UPGRADE[0] == 'u'
  {
  }

  lemma Extends(w: string, c: char, x: string)
    ensures w + [c] <= x <==> w < x && x[|w|] == c
  {
    if |w| < |x| {
      assert x[..|w| + 1] == x[..|w|] + [x[|w|]];
      if w + [c] <= x {
        assert (w + [c])[..|w|] == w && (w + [c])[|w|] == c;
      }
    }
  }

  // One letter tells the words apart, or four do.
  lemma OneWord(w: string)
    requires w != []
    ensures w[0] == 'p' ==> (Known(w) <==> w <= PROXY_CONNECTION)
    ensures w[0] == 't' ==> (Known(w) <==> w <= TRANSFER_ENCODING)
    ensures w[0] == 'u' ==> (Known(w) <==> w <= UPGRADE)
    ensures |w| >= 4 && w[0] == 'c' && w[3] == 'n' ==> (Known(w) <==> w <= CONNECTION)
    ensures |w| >= 4 && w[0] == 'c' && w[3] == 't' ==> (Known(w) <==> w <= CONTENT_LENGTH)
  {
    hide CONNECTION, PROXY_CONNECTION, CONTENT_LENGTH, TRANSFER_ENCODING, UPGRADE;
    WordLengths();
    WordLetters();
  }

  lemma FirstTracks(c: Byte)
    ensures Tracks(FirstFieldState(c), 0, [c])
  {
    hide CONNECTION, PROXY_CONNECTION, CONTENT_LENGTH, TRANSFER_ENCODING, UPGRADE;
    WordLengths();
    WordLetters();
    assert c == 'c' ==> [c] == CONNECTION[..1];
  }

  lemma KnownShort(w: string, c: char)
    ensures w == CONNECTION[..1] ==> (Known(w + [c]) <==> c == 'o')
    ensures w == CONNECTION[..2] ==> (Known(w + [c]) <==> c == 'n')
    ensures w == CONNECTION[..3] ==> (Known(w + [c]) <==> c == 'n' || c == 't')
    ensures w == CONNECTION[..3] && c == 'n' ==> w + [c] < CONNECTION
    ensures w == CONNECTION[..3] && c == 't' ==> w + [c] < CONTENT_LENGTH
  {
    hide CONNECTION, PROXY_CONNECTION, CONTENT_LENGTH, TRANSFER_ENCODING, UPGRADE;
    WordLengths();
    WordLetters();
    Extends(w, c, CONNECTION);
    Extends(w, c, CONTENT_LENGTH);
  }

  lemma KnownNot(w: string, c: char)
    requires !Known(w) || (w == CONNECTION || w == PROXY_CONNECTION || w == CONTENT_LENGTH
                           || w == TRANSFER_ENCODING || w == UPGRADE)
    ensures !Known(w + [c])
  {
    hide CONNECTION, PROXY_CONNECTION, CONTENT_LENGTH, TRANSFER_ENCODING, UPGRADE;
    WordLengths();
    WordLetters();
    Extends(w, c, CONNECTION);
    Extends(w, c, PROXY_CONNECTION);
    Extends(w, c, CONTENT_LENGTH);
    Extends(w, c, TRANSFER_ENCODING);
    Extends(w, c, UPGRADE);
  }

  // In the middle of the word x that h matches, and sure of it.
  lemma MatchTracks(x: string, w: string, c: char, i: nat, h: HeaderState, hit: HeaderState)
    requires w < x && i + 1 == |w|
    requires Known(w + [c]) <==> w + [c] <= x
    ensures var r := if i + 1 >= |x| || c != x[i + 1] then General else if i + 1 == |x| - 1 then hit else h;
      && (r == General && hit != General && h != General ==> !Known(w + [c]))
      && (r == hit && hit != h && hit != General ==> w + [c] == x)
      && (r == h && hit != h && h != General ==> w + [c] < x)
  {
    hide Known;
    Extends(w, c, x);
  }

  lemma FieldTracks(h: HeaderState, i: nat, w: string, c: Byte)
    requires Tracks(h, i, w)
    ensures var r := FieldNext(h, i, c); r.Some? && Tracks(r.value.0, r.value.1, w + [c])
  {
    hide CONNECTION, PROXY_CONNECTION, CONTENT_LENGTH, TRANSFER_ENCODING, UPGRADE, Known;
    WordLengths();
    WordLetters();
    if h.C? || h.CO? || h.CON? {
      KnownShort(w, c);
      ShortTracks(w, c);
    } else if h.General? || h.Connection? || h.ContentLength? || h.TransferEncoding? || h.Upgrade? {
      KnownNot(w, c);
    } else {
      OneWord(w + [c]);
      if h.MatchingConnection? {
        MatchTracks(CONNECTION, w, c, i, h, Connection);
      } else if h.MatchingContentLength? {
        MatchTracks(CONTENT_LENGTH, w, c, i, h, ContentLength);
      } else if h.MatchingProxyConnection? {
        MatchTracks(PROXY_CONNECTION, w, c, i, h, Connection);
      } else if h.MatchingTransferEncoding? {
        MatchTracks(TRANSFER_ENCODING, w, c, i, h, TransferEncoding);
      } else {
        MatchTracks(UPGRADE, w, c, i, h, Upgrade);
      }
    }
  }

  lemma ShortTracks(w: string, c: char)
    ensures w == CONNECTION[..1] && c == 'o' ==> w + [c] == CONNECTION[..2]
    ensures w == CONNECTION[..2] && c == 'n' ==> w + [c] == CONNECTION[..3]
  {
    hide CONNECTION;
    WordLengths();
    WordLetters();
  }

  lemma FieldStep(max: nat, f: Fields, log: Log, ch: Byte)
    requires f.state.HeaderField? && f.nread + 1 <= max && Token(ch) != '\0'
    requires FieldNext(f.hstate, f.index, Token(ch)).Some?
    ensures var (h, i) := FieldNext(f.hstate, f.index, Token(ch)).value;
      Step(max, f, log, ch)
      == Next(f.(nread := f.nread + 1, hstate := h, index := i), Append(log, FieldData, [ch]))
  {
    hide Token, FieldNext, Append, ResponseHop, RequestHop, UrlHop, BodyHop;
  }

  lemma FieldStartStep(max: nat, f: Fields, log: Log, ch: Byte)
    requires f.state.HeaderFieldStart? && f.nread + 1 <= max && Token(ch) != '\0'
    ensures Step(max, f, log, ch)
         == Next(f.(nread := f.nread + 1, state := HeaderField, hstate := FirstFieldState(Token(ch)), index := 0),
                 Append(log, FieldData, [ch]))
  {
    hide FirstFieldState, Append, ResponseHop, RequestHop, UrlHop, BodyHop, FieldHop, Lower;
    AppendTwice(log, FieldData, [], [ch]);
    assert [] + [ch] == [ch];
  }

  lemma {:induction false} NameRest(max: nat, f: Fields, log: Log, seen: string, w: ByteString)
    requires f.state.HeaderField? && f.nread + |w| <= max && EndsIn(log, FieldData)
    requires (forall ch <- w :: Token(ch) != '\0') && Tracks(f.hstate, f.index, seen)
    ensures var r := Run(max, f, log, w);
      && r.Consumed? && r.log == Append(log, FieldData, w)
      && r.f == f.(nread := f.nread + |w|, hstate := r.f.hstate, index := r.f.index)
      && Tracks(r.f.hstate, r.f.index, seen + Lowered(w))
    decreases |w|
  {
    hide Step, Token, Append, Tracks, FieldNext;
    if w == [] {
      AppendNothing(log, FieldData);
      assert seen + Lowered(w) == seen;
    } else {
      var c := Token(w[0]);
      FieldTracks(f.hstate, f.index, seen, c);
      FieldStep(max, f, log, w[0]);
      var r := Step(max, f, log, w[0]);
      AppendEnds(log, FieldData, [w[0]]);
      NameRest(max, r.f, r.log, seen + [c], w[1..]);
      AppendTwice(log, FieldData, [w[0]], w[1..]);
      assert [w[0]] + w[1..] == w && seen + [c] + Lowered(w[1..]) == seen + Lowered(w);
    }
  }

  // A header name is reported whole, and it is taken for one of the names that the
  // parser acts on exactly when it equals that name, ignoring case.
  lemma HeaderRecognised(max: nat, f: Fields, log: Log, w: ByteString)
    requires f.state.HeaderFieldStart? && f.nread + |w| <= max
    requires w != [] && (forall ch <- w :: Token(ch) != '\0')
    ensures var (r, name) := (Run(max, f, log, w), Lowered(w));
      && r.Consumed? && r.log == Append(log, FieldData, w) && Tracks(r.f.hstate, r.f.index, name)
      && r.f == f.(state := HeaderField, nread := f.nread + |w|, hstate := r.f.hstate, index := r.f.index)
      && (r.f.hstate == ContentLength <==> name == CONTENT_LENGTH)
      && (r.f.hstate == TransferEncoding <==> name == TRANSFER_ENCODING)
      && (r.f.hstate == Upgrade <==> name == UPGRADE)
      && (r.f.hstate == Connection <==> name == CONNECTION || name == PROXY_CONNECTION)
  {
    hide Step, Token, Append, Tracks, Lowered, CONTENT_LENGTH, TRANSFER_ENCODING, UPGRADE, CONNECTION,
      PROXY_CONNECTION, FirstFieldState;
    var c := Token(w[0]);
    FieldStartStep(max, f, log, w[0]);
    FirstTracks(c);
    AppendEnds(log, FieldData, [w[0]]);
    var r := Step(max, f, log, w[0]);
    NameRest(max, r.f, r.log, [c], w[1..]);
    AppendTwice(log, FieldData, [w[0]], w[1..]);
    assert [w[0]] + w[1..] == w;
    LoweredCons(w);
    var e := Run(max, f, log, w);
    TracksWhole(e.f.hstate, e.f.index, Lowered(w));
  }

  lemma LoweredCons(w: ByteString)
    requires w != []
    ensures Lowered(w) == [Token(w[0])] + Lowered(w[1..])
  {
  }

  lemma TracksWhole(h: HeaderState, i: nat, w: string)
    requires Tracks(h, i, w)
    ensures h == ContentLength <==> w == CONTENT_LENGTH
    ensures h == TransferEncoding <==> w == TRANSFER_ENCODING
    ensures h == Upgrade <==> w == UPGRADE
    ensures h == Connection <==> w == CONNECTION || w == PROXY_CONNECTION
  {
    hide CONNECTION, PROXY_CONNECTION, CONTENT_LENGTH, TRANSFER_ENCODING, UPGRADE;
    WordLengths();
    WordLetters();
  }
}
