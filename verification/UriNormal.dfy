// Printing a Uri and parsing it again.
module UriNormal {
  import opened Bytes
  import opened HttpTypes
  import opened UrlChars
  import opened HttpFraming
  import opened UrlSplit
  import opened Uris

  // w stands in buf at p.
  predicate Stands(buf: ByteString, p: nat, w: ByteString) {
    p + |w| <= |buf| && forall i :: 0 <= i < |w| ==> buf[p + i] == w[i]
  }

  lemma StandsBoth(buf: ByteString, p: nat, a: ByteString, b: ByteString)
    requires Stands(buf, p, a + b)
    ensures Stands(buf, p, a) && Stands(buf, p + |a|, b)
  {
    assert forall i :: 0 <= i < |a| ==> (a + b)[i] == a[i];
    assert forall i :: 0 <= i < |b| ==> (a + b)[|a| + i] == b[i];
  }

  lemma StandsPiece(buf: ByteString, p: nat, w: ByteString)
    requires Stands(buf, p, w)
    ensures buf[p..p + |w|] == w
  {
  }

  // ---- Scanning one field ---------------------------------------------------------------------

  // The state in the middle of a field.
  function Home(f: Field): State
    requires f != PORT && f != USERINFO
  {
    match f
    case SCHEMA => ReqSchema case HOST => ReqServer case PATH => ReqPath case QUERY => ReqQueryString
    case FRAGMENT => ReqFragment
  }

  // The bytes that keep the scan there.
  predicate Keeps(f: Field, c: Byte) {
    if f.HOST? then IsUserInfoChar(c) else FieldChar(f, c)
  }

  lemma HomeStays(f: Field, s: State, c: Byte)
    requires f != PORT && f != USERINFO && Keeps(f, c) && FieldOf(s) == Some(f)
    ensures ParseUrlChar(s, c) == Home(f) && FieldOf(Home(f)) == Some(f)
  {
  }

  lemma Step(buf: ByteString, p: nat, x: Scan, s: State)
    requires p < |buf| && ParseUrlChar(x.s, buf[p]) == s && !s.Dead? && FieldOf(s).None?
    ensures ScanFrom(buf, p, x) == ScanFrom(buf, p + 1, x.(s := s))
  {
    hide ParseUrlChar;
  }

  lemma ByteOn(p: nat, c: Byte, x: Scan, f: Field)
    requires f != PORT && f != USERINFO && Keeps(f, c) && p + 1 < TWO_16
    requires FieldOf(x.s) == Some(f) && x.last == Some(f) && f in x.u && End(x.u[f]) == p
    ensures ScanByte(x, p, c) == Scan(Home(f), x.u[f := Extent(x.u[f].off, x.u[f].len + 1)], Some(f), x.at)
    ensures FieldOf(Home(f)) == Some(f) && !Home(f).Dead?
  {
    hide Keeps, ParseUrlChar, Home;
    HomeStays(f, x.s, c);
    HomeIs(f);
  }

  // More bytes of the field that the scan is in.
  lemma {:induction false} ScanOn(buf: ByteString, p: nat, w: ByteString, x: Scan, f: Field)
    requires Stands(buf, p, w) && |buf| < TWO_16 && f != PORT && f != USERINFO
    requires FieldOf(x.s) == Some(f) && x.last == Some(f) && f in x.u && End(x.u[f]) == p
    requires forall c <- w :: Keeps(f, c)
    ensures ScanFrom(buf, p, x)
         == ScanFrom(buf, p + |w|, Scan(if w == [] then x.s else Home(f),
                                        x.u[f := Extent(x.u[f].off, x.u[f].len + |w|)], Some(f), x.at))
    decreases |w|
  {
    hide Keeps, ParseUrlChar, Home, ScanFrom, ScanByte, Stands, FieldOf;
    if w == [] {
      assert x.u[f := Extent(x.u[f].off, x.u[f].len)] == x.u;
    } else {
      StandsHead(buf, p, w);
      StandsTail(buf, p, w);
      ByteOn(p, w[0], x, f);
      var x' := Scan(Home(f), x.u[f := Extent(x.u[f].off, x.u[f].len + 1)], Some(f), x.at);
      OneMore(buf, p, x, x');
      ScanOn(buf, p + 1, w[1..], x', f);
      assert x'.u[f := Extent(x.u[f].off, x.u[f].len + |w|)] == x.u[f := Extent(x.u[f].off, x.u[f].len + |w|)];
    }
  }

  lemma HomeIs(f: Field)
    requires f != PORT && f != USERINFO
    ensures !Home(f).ReqServerWithAt? && !Home(f).Dead?
  {
  }

  lemma OneMore(buf: ByteString, p: nat, x: Scan, x': Scan)
    requires p < |buf| && ScanByte(x, p, buf[p]) == x' && !x'.s.Dead?
    ensures ScanFrom(buf, p, x) == ScanFrom(buf, p + 1, x')
  {
    hide ScanByte;
  }

  // The bytes of a new field.
  lemma ScanNew(buf: ByteString, p: nat, w: ByteString, x: Scan, f: Field)
    requires Stands(buf, p, w) && |buf| < TWO_16 && f != PORT && f != USERINFO && w != [] && x.last != Some(f)
    requires ParseUrlChar(x.s, w[0]) == Home(f) && forall c <- w :: Keeps(f, c)
    ensures ScanFrom(buf, p, x) == ScanFrom(buf, p + |w|, Scan(Home(f), x.u[f := Extent(p, |w|)], Some(f), x.at))
  {
    hide Keeps, ParseUrlChar, Home, ScanFrom;
    HomeIs(f);
    HomeField(f);
    assert buf[p] == w[0];
    var x' := Scan(Home(f), x.u[f := Started(p)], Some(f), x.at);
    OneMore(buf, p, x, x');
    ScanOn(buf, p + 1, w[1..], x', f);
    assert x'.u[f := Extent(p, |w|)] == x.u[f := Extent(p, |w|)];
  }

  lemma HomeField(f: Field)
    requires f != PORT && f != USERINFO
    ensures FieldOf(Home(f)) == Some(f)
  {
  }

  // ---- Scanning the parts of a printed Uri ------------------------------------------------------

  lemma Starts(c: Byte)
    ensures FieldChar(SCHEMA, c) ==> ParseUrlChar(ReqSpacesBeforeUrl, c) == ReqSchema
    ensures IsUserInfoChar(c) ==> ParseUrlChar(ReqServerStart, c) == ReqServer
  {
  }

  lemma StartsBehind(c: Byte)
    ensures FieldChar(QUERY, c) ==> ParseUrlChar(ReqQueryStringStart, c) == ReqQueryString
    ensures FieldChar(FRAGMENT, c) && c != '#' ==> ParseUrlChar(ReqFragmentStart, c) == ReqFragment
  {
    hide IsUserInfoChar, IsAlpha;
  }

  lemma SchemeDelimiters()
    ensures ParseUrlChar(ReqSchema, ':') == ReqSchemaSlash
    ensures ParseUrlChar(ReqSchemaSlash, '/') == ReqSchemaSlashSlash
    ensures ParseUrlChar(ReqSchemaSlashSlash, '/') == ReqServerStart
  {
    assert !IsAlpha(':');
  }

  lemma Delimiters()
    ensures ParseUrlChar(ReqServer, '@') == ReqServerWithAt && ParseUrlChar(ReqServer, '/') == ReqPath
    ensures ParseUrlChar(ReqPath, '?') == ReqQueryStringStart
    ensures ParseUrlChar(ReqPath, '#') == ReqFragmentStart && ParseUrlChar(ReqQueryString, '#') == ReqFragmentStart
  {
    hide IsUserInfoChar, IsAlpha;
  }

  lemma StandsTail(buf: ByteString, p: nat, w: ByteString)
    requires Stands(buf, p, w) && w != []
    ensures Stands(buf, p + 1, w[1..])
  {
    forall i | 0 <= i < |w| - 1 ensures buf[p + 1 + i] == w[1..][i] {
      assert buf[p + (i + 1)] == w[i + 1];
    }
  }

  lemma StandsHead(buf: ByteString, p: nat, w: ByteString)
    requires Stands(buf, p, w)
    ensures p + |w| <= |buf| && (w != [] ==> buf[p] == w[0])
  {
    assert w != [] ==> buf[p + 0] == w[0];
  }

  lemma SlashesStand(buf: ByteString, p: nat)
    requires Stands(buf, p, COLON_SLASHES)
    ensures p + 3 <= |buf| && buf[p] == ':' && buf[p + 1] == '/' && buf[p + 2] == '/'
  {
    assert buf[p + 0] == COLON_SLASHES[0] && buf[p + 1] == COLON_SLASHES[1] && buf[p + 2] == COLON_SLASHES[2];
  }

  lemma ScanScheme(buf: ByteString, scheme: ByteString)
    requires Stands(buf, 0, scheme) && Stands(buf, |scheme|, COLON_SLASHES) && |buf| < TWO_16
    requires scheme != [] && forall c <- scheme :: FieldChar(SCHEMA, c)
    ensures ScanFrom(buf, 0, ScanStart(false))
         == ScanFrom(buf, |scheme| + 3, Scan(ReqServerStart, map[SCHEMA := Extent(0, |scheme|)], Some(SCHEMA), false))
  {
    hide ParseUrlChar, ScanFrom, FieldChar, IsUserInfoChar, Stands;
    Starts(scheme[0]);
    SchemeDelimiters();
    SlashesStand(buf, |scheme|);
    var n, x := |scheme|, ScanStart(false);
    ScanNew(buf, 0, scheme, x, SCHEMA);
    var u: UrlSplit.Fields := map[SCHEMA := Extent(0, n)];
    assert x.u[SCHEMA := Extent(0, n)] == u;
    Step(buf, n, Scan(ReqSchema, u, Some(SCHEMA), false), ReqSchemaSlash);
    Step(buf, n + 1, Scan(ReqSchemaSlash, u, Some(SCHEMA), false), ReqSchemaSlashSlash);
    Step(buf, n + 2, Scan(ReqSchemaSlashSlash, u, Some(SCHEMA), false), ReqServerStart);
  }

  // The authority without user information.
  lemma ScanHost(buf: ByteString, a: nat, w: ByteString, x: Scan)
    requires x.s == ReqServerStart && x.last != Some(HOST) && |buf| < TWO_16
    requires w != [] && (forall c <- w :: IsUserInfoChar(c)) && Stands(buf, a, w)
    ensures ScanFrom(buf, a, x)
         == ScanFrom(buf, a + |w|, Scan(ReqServer, x.u[HOST := Extent(a, |w|)], Some(HOST), x.at))
  {
    hide ParseUrlChar, ScanFrom, IsUserInfoChar, Stands;
    Starts(w[0]);
    ScanNew(buf, a, w, x, HOST);
  }

  // And with it.
  lemma ScanUser(buf: ByteString, a: nat, user: ByteString, w: ByteString, x: Scan)
    requires x.s == ReqServerStart && x.last != Some(HOST) && |buf| < TWO_16 && user != []
    requires w != [] && (forall c <- w :: IsUserInfoChar(c)) && (forall c <- user :: IsUserInfoChar(c))
    requires Stands(buf, a, user) && Stands(buf, a + |user|, ['@']) && Stands(buf, a + |user| + 1, w)
    ensures var n := |user| + 1 + |w|;
      ScanFrom(buf, a, x) == ScanFrom(buf, a + n, Scan(ReqServer, x.u[HOST := Extent(a, n)], Some(HOST), true))
  {
    hide ParseUrlChar, ScanFrom, IsUserInfoChar, Stands;
    var n := |user|;
    Delimiters();
    ScanHost(buf, a, user, x);
    StandsHead(buf, a + n, ['@']);
    StandsHead(buf, a + n + 1, w);
    var x1 := Scan(ReqServer, x.u[HOST := Extent(a, n)], Some(HOST), x.at);
    var x2 := Scan(ReqServerWithAt, x.u[HOST := Extent(a, n + 1)], Some(HOST), true);
    assert x1.u[HOST := Longer(x1.u[HOST])] == x2.u;
    OneMore(buf, a + n, x1, x2);
    ScanOn(buf, a + n + 1, w, x2, HOST);
    assert x2.u[HOST := Extent(a, n + 1 + |w|)] == x.u[HOST := Extent(a, n + 1 + |w|)];
  }

  lemma ScanQuery(buf: ByteString, p: nat, query: ByteString, x: Scan)
    requires x.s == ReqPath && x.last != Some(QUERY) && |buf| < TWO_16
    requires query != [] && (forall c <- query :: FieldChar(QUERY, c))
    requires Stands(buf, p, ['?']) && Stands(buf, p + 1, query)
    ensures ScanFrom(buf, p, x)
         == ScanFrom(buf, p + 1 + |query|,
                     Scan(ReqQueryString, x.u[QUERY := Extent(p + 1, |query|)], Some(QUERY), x.at))
  {
    hide ParseUrlChar, ScanFrom, IsUrlChar, Stands, FieldChar;
    StartsBehind(query[0]);
    Delimiters();
    StandsHead(buf, p, ['?']);
    Step(buf, p, x, ReqQueryStringStart);
    ScanNew(buf, p + 1, query, x.(s := ReqQueryStringStart), QUERY);
  }

  lemma ScanFragment(buf: ByteString, p: nat, fragment: ByteString, x: Scan)
    requires (x.s == ReqPath || x.s == ReqQueryString) && x.last != Some(FRAGMENT) && |buf| < TWO_16
    requires fragment != [] && (forall c <- fragment :: FieldChar(FRAGMENT, c)) && fragment[0] != '#'
    requires Stands(buf, p, ['#']) && Stands(buf, p + 1, fragment)
    ensures var e := p + 1 + |fragment|;
      ScanFrom(buf, p, x)
      == ScanFrom(buf, e, Scan(ReqFragment, x.u[FRAGMENT := Extent(p + 1, |fragment|)], Some(FRAGMENT), x.at))
  {
    hide ParseUrlChar, ScanFrom, IsUrlChar, Stands, FieldChar;
    StartsBehind(fragment[0]);
    Delimiters();
    StandsHead(buf, p, ['#']);
    Step(buf, p, x, ReqFragmentStart);
    ScanNew(buf, p + 1, fragment, x.(s := ReqFragmentStart), FRAGMENT);
  }

  // ---- Scanning the authority of a printed Uri ----------------------------------------------------

  lemma HostStep(buf: ByteString, p: nat, end: nat, x: Authority, y: Authority)
    requires p < end <= |buf| && HostByte(x, p, buf[p]) == y && !y.s.HostDead?
    ensures HostFrom(buf, p, end, x) == HostFrom(buf, p + 1, end, y)
  {
    hide HostByte;
  }

  lemma UserByte(x: Authority, p: nat, ch: Byte, off: nat)
    requires IsUserInfoChar(ch) && ch != '@' && p + 1 < TWO_16
    requires if x.userinfo.None? then x.s.UserinfoStart? && off == p
             else x.s.Userinfo? && x.userinfo.value.off == off && End(x.userinfo.value) == p
    ensures HostByte(x, p, ch) == x.(s := Userinfo, userinfo := Some(Extent(off, p + 1 - off)))
  {
    hide IsUserInfoChar;
  }

  lemma HostNameByte(x: Authority, p: nat, ch: Byte, off: nat)
    requires IsHostChar(ch) && ch != '[' && p + 1 < TWO_16
    requires if x.s.Host? then x.host.off == off && End(x.host) == p else x.s.HostStart? && off == p && x.host.len == 0
    ensures HostByte(x, p, ch) == x.(s := Host, host := Extent(off, p + 1 - off))
  {
    hide IsHostChar;
  }

  lemma PortByte(x: Authority, p: nat, ch: Byte, off: nat)
    requires IsNum(ch) && p + 1 < TWO_16
    requires if x.port.None? then x.s.PortStart? && off == p
             else x.s.Port? && x.port.value.off == off && End(x.port.value) == p
    ensures HostByte(x, p, ch) == x.(s := Port, port := Some(Extent(off, p + 1 - off)))
  {
    hide IsNum;
  }

  lemma {:induction false} UserRun(buf: ByteString, p: nat, w: ByteString, end: nat, x: Authority, off: nat)
    requires Stands(buf, p, w) && p + |w| <= end <= |buf| < TWO_16 && forall c <- w :: IsUserInfoChar(c) && c != '@'
    requires if x.userinfo.None? then x.s.UserinfoStart? && off == p
             else x.s.Userinfo? && x.userinfo.value.off == off && End(x.userinfo.value) == p
    ensures w != [] ==>
      HostFrom(buf, p, end, x)
      == HostFrom(buf, p + |w|, end, x.(s := Userinfo, userinfo := Some(Extent(off, p + |w| - off))))
    decreases |w|
  {
    hide IsUserInfoChar, HostFrom, HostByte;
    if w != [] {
      assert buf[p + 0] == w[0];
      var y := x.(s := Userinfo, userinfo := Some(Extent(off, p + 1 - off)));
      UserByte(x, p, w[0], off);
      StandsTail(buf, p, w);
      HostStep(buf, p, end, x, y);
      UserRun(buf, p + 1, w[1..], end, y, off);
    }
  }

  lemma {:induction false} HostRun(buf: ByteString, p: nat, w: ByteString, end: nat, x: Authority, off: nat)
    requires Stands(buf, p, w) && p + |w| <= end <= |buf| < TWO_16 && forall c <- w :: IsHostChar(c) && c != '['
    requires if x.s.Host? then x.host.off == off && End(x.host) == p else x.s.HostStart? && off == p && x.host.len == 0
    ensures w != [] ==>
      HostFrom(buf, p, end, x) == HostFrom(buf, p + |w|, end, x.(s := Host, host := Extent(off, p + |w| - off)))
    decreases |w|
  {
    hide IsHostChar, HostFrom, HostByte;
    if w != [] {
      assert buf[p + 0] == w[0];
      var y := x.(s := Host, host := Extent(off, p + 1 - off));
      HostNameByte(x, p, w[0], off);
      StandsTail(buf, p, w);
      HostStep(buf, p, end, x, y);
      HostRun(buf, p + 1, w[1..], end, y, off);
    }
  }

  lemma {:induction false} PortRun(buf: ByteString, p: nat, w: ByteString, end: nat, x: Authority, off: nat)
    requires Stands(buf, p, w) && p + |w| <= end <= |buf| < TWO_16 && forall c <- w :: IsNum(c)
    requires if x.port.None? then x.s.PortStart? && off == p
             else x.s.Port? && x.port.value.off == off && End(x.port.value) == p
    ensures w != [] ==>
      HostFrom(buf, p, end, x) == HostFrom(buf, p + |w|, end, x.(s := Port, port := Some(Extent(off, p + |w| - off))))
    decreases |w|
  {
    hide IsNum, HostFrom, HostByte;
    if w != [] {
      assert buf[p + 0] == w[0];
      var y := x.(s := Port, port := Some(Extent(off, p + 1 - off)));
      PortByte(x, p, w[0], off);
      StandsTail(buf, p, w);
      HostStep(buf, p, end, x, y);
      PortRun(buf, p + 1, w[1..], end, y, off);
    }
  }

  lemma NotDelimiters(c: Byte)
    ensures IsUserInfoChar(c) ==> c != '@'
    ensures IsHostChar(c) ==> c != '[' && IsUserInfoChar(c)
    ensures IsNum(c) || c == ':' ==> IsUserInfoChar(c)
    ensures c == ':' ==> !IsHostChar(c)
  {
  }

  // The user information, up to the host.
  lemma UserPart(buf: ByteString, a: nat, user: ByteString, end: nat, x: Extent)
    requires user != [] && (forall c <- user :: IsUserInfoChar(c)) && x.off == a
    requires a + |user| + 1 <= end <= |buf| < TWO_16
    requires Stands(buf, a, user) && Stands(buf, a + |user|, ['@'])
    ensures HostFrom(buf, a, end, HostBegin(x, true))
         == HostFrom(buf, a + |user| + 1, end, Authority(HostStart, Extent(a, 0), None, Some(Extent(a, |user|))))
  {
    hide IsUserInfoChar, HostFrom, Stands;
    forall c | c in user ensures c != '@' {
      NotDelimiters(c);
    }
    var n := |user|;
    StandsHead(buf, a + n, ['@']);
    UserRun(buf, a, user, end, HostBegin(x, true), a);
    HostStep(buf, a + n, end, Authority(Userinfo, Extent(a, 0), None, Some(Extent(a, n))),
             Authority(HostStart, Extent(a, 0), None, Some(Extent(a, n))));
  }

  // The host and the port, if there is one.
  lemma HostPart(buf: ByteString, h: nat, host: ByteString, port: ByteString, end: nat, x: Authority)
    requires x.s.HostStart? && x.host.len == 0 && x.port.None? && host != [] && HostName(host)
    requires Stands(buf, h, host) && end == h + |host| + (if port == [] then 0 else 1 + |port|) && end <= |buf| < TWO_16
    requires port != [] ==> Stands(buf, h + |host|, [':']) && Stands(buf, h + |host| + 1, port)
    requires forall c <- port :: IsNum(c)
    ensures var n := h + |host|;
      HostFrom(buf, h, end, x)
      == Some(if port == [] then x.(s := Host, host := Extent(h, |host|))
              else x.(s := Port, host := Extent(h, |host|), port := Some(Extent(n + 1, |port|))))
  {
    hide IsHostChar, IsNum, Stands;
    forall c | c in host ensures c != '[' {
      NotDelimiters(c);
    }
    HostRun(buf, h, host, end, x, h);
    if port != [] {
      PortPart(buf, h + |host|, port, end, x.(s := Host, host := Extent(h, |host|)));
    }
  }

  lemma PortPart(buf: ByteString, p: nat, port: ByteString, end: nat, x: Authority)
    requires x.s.Host? && x.port.None? && port != [] && end == p + 1 + |port| && end <= |buf| < TWO_16
    requires Stands(buf, p, [':']) && Stands(buf, p + 1, port) && forall c <- port :: IsNum(c)
    ensures HostFrom(buf, p, end, x) == Some(x.(s := Port, port := Some(Extent(p + 1, |port|))))
  {
    hide IsNum, Stands;
    StandsHead(buf, p, [':']);
    NotDelimiters(':');
    HostStep(buf, p, end, x, x.(s := PortStart));
    PortRun(buf, p + 1, port, end, x.(s := PortStart), p + 1);
  }

  // ---- The whole of it -------------------------------------------------------------------------

  // Where the parts of a printed Uri stand.
  function AuthorityAt(p: Parts): nat { |p.scheme| + 3 }
  function HostAt(p: Parts): nat { AuthorityAt(p) + |PrintedUser(p)| }
  function PathAt(p: Parts): nat { HostAt(p) + |p.host| + |PrintedPort(p)| }
  function QueryAt(p: Parts): nat { PathAt(p) + |GetPath(p)| }
  function FragmentAt(p: Parts): nat { QueryAt(p) + |PrintedQuery(p)| }

  ghost predicate AllStand(t: ByteString, p: Parts) {
    && Stands(t, 0, p.scheme) && Stands(t, |p.scheme|, COLON_SLASHES)
    && Stands(t, AuthorityAt(p), PrintedUser(p)) && Stands(t, HostAt(p), p.host + PrintedPort(p))
    && Stands(t, PathAt(p), GetPath(p)) && Stands(t, QueryAt(p), PrintedQuery(p))
    && Stands(t, FragmentAt(p), PrintedFragment(p)) && |t| == FragmentAt(p) + |PrintedFragment(p)|
  }

  lemma PrintedStands(p: Parts)
    ensures AllStand(ToString(p), p)
  {
    hide Stands, PrintedUser, PrintedPort, PrintedQuery, PrintedFragment, GetPath;
    var t := ToString(p);
    var t6 := PrintedQuery(p) + PrintedFragment(p);
    var t5 := GetPath(p) + t6;
    var t4 := (p.host + PrintedPort(p)) + t5;
    var t3 := PrintedUser(p) + t4;
    var t2 := COLON_SLASHES + t3;
    StandsWhole(t);
    StandsBoth(t, 0, p.scheme, t2);
    StandsBoth(t, |p.scheme|, COLON_SLASHES, t3);
    StandsBoth(t, AuthorityAt(p), PrintedUser(p), t4);
    StandsBoth(t, HostAt(p), p.host + PrintedPort(p), t5);
    StandsBoth(t, PathAt(p), GetPath(p), t6);
    StandsBoth(t, QueryAt(p), PrintedQuery(p), PrintedFragment(p));
  }

  lemma StandsWhole(t: ByteString)
    ensures Stands(t, 0, t)
  {
  }

  function AuthorityFields(p: Parts): UrlSplit.Fields {
    map[SCHEMA := Extent(0, |p.scheme|), HOST := Extent(AuthorityAt(p), PathAt(p) - AuthorityAt(p)),
        PATH := Extent(PathAt(p), |GetPath(p)|)]
  }

  function ScannedFields(p: Parts): UrlSplit.Fields {
    var u := AuthorityFields(p);
    var u1 := if p.query == [] then u else u[QUERY := Extent(QueryAt(p) + 1, |p.query|)];
    if p.fragment == [] then u1 else u1[FRAGMENT := Extent(FragmentAt(p) + 1, |p.fragment|)]
  }

  lemma PortDigits(p: Parts)
    ensures forall c <- PrintedPort(p) :: IsNum(c) || c == ':'
  {
    hide IsNum, Decimal;
    if !IsDefaultPort(p) {
      DecimalBack(p.port);
    }
  }

  // The scan up to the path.
  lemma FrontStands(t: ByteString, p: Parts)
    requires AllStand(t, p)
    ensures Stands(t, 0, p.scheme) && Stands(t, |p.scheme|, COLON_SLASHES)
    ensures Stands(t, AuthorityAt(p), PrintedUser(p)) && Stands(t, HostAt(p), p.host + PrintedPort(p))
    ensures Stands(t, PathAt(p), GetPath(p))
  {
    hide Stands, PrintedPort, GetPath, PrintedQuery, PrintedFragment, PrintedUser;
  }

  lemma ScanFront(t: ByteString, p: Parts)
    requires PartsOk(p) && AllStand(t, p) && |t| < TWO_16
    ensures ScanFrom(t, 0, ScanStart(false))
         == ScanFrom(t, PathAt(p), Scan(ReqServer, map[SCHEMA := Extent(0, |p.scheme|),
                                                      HOST := Extent(AuthorityAt(p), PathAt(p) - AuthorityAt(p))],
                                        Some(HOST), p.userinfo != []))
  {
    hide Stands, ScanFrom, FieldChar, IsUserInfoChar, IsHostChar, PrintedPort, GetPath, PrintedQuery,
      PrintedFragment, IsNum, AllStand;
    FrontStands(t, p);
    ScanScheme(t, p.scheme);
    var w := p.host + PrintedPort(p);
    PortDigits(p);
    forall c | c in w ensures IsUserInfoChar(c) {
      NotDelimiters(c);
    }
    var u: UrlSplit.Fields := map[SCHEMA := Extent(0, |p.scheme|)];
    var x := Scan(ReqServerStart, u, Some(SCHEMA), false);
    if p.userinfo == [] {
      ScanHost(t, AuthorityAt(p), w, x);
    } else {
      StandsBoth(t, AuthorityAt(p), p.userinfo, ['@']);
      ScanUser(t, AuthorityAt(p), p.userinfo, w, x);
    }
    assert u[HOST := Extent(AuthorityAt(p), PathAt(p) - AuthorityAt(p))]
        == map[SCHEMA := Extent(0, |p.scheme|), HOST := Extent(AuthorityAt(p), PathAt(p) - AuthorityAt(p))];
  }

  lemma PathOk(p: Parts)
    requires PartsOk(p)
    ensures GetPath(p) != [] && GetPath(p)[0] == '/' && forall c <- GetPath(p) :: FieldChar(PATH, c)
  {
  }

  // And to the end.
  lemma ScanWhole(t: ByteString, p: Parts)
    requires PartsOk(p) && AllStand(t, p) && |t| < TWO_16
    ensures var r := ScanFrom(t, 0, ScanStart(false));
      r.Some? && r.value.u == ScannedFields(p) && r.value.at == (p.userinfo != [])
  {
    hide Stands, ScanFrom, FieldChar, IsUserInfoChar, IsHostChar, PrintedPort, PrintedUser, ParseUrlChar, GetPath,
      PrintedQuery, PrintedFragment;
    ScanFront(t, p);
    PathOk(p);
    Delimiters();
    var x := Scan(ReqServer, map[SCHEMA := Extent(0, |p.scheme|),
                                 HOST := Extent(AuthorityAt(p), PathAt(p) - AuthorityAt(p))],
                  Some(HOST), p.userinfo != []);
    ScanNew(t, PathAt(p), GetPath(p), x, PATH);
    var x1 := Scan(ReqPath, AuthorityFields(p), Some(PATH), x.at);
    assert x.u[PATH := Extent(PathAt(p), |GetPath(p)|)] == AuthorityFields(p);
    ScanBack(t, p, x1);
  }

  lemma ScanQueryPart(t: ByteString, p: Parts, x: Scan)
    requires |t| < TWO_16 && p.query != [] && (forall c <- p.query :: FieldChar(QUERY, c))
    requires Stands(t, QueryAt(p), PrintedQuery(p)) && x.s == ReqPath && x.last == Some(PATH)
    ensures ScanFrom(t, QueryAt(p), x)
         == ScanFrom(t, FragmentAt(p),
                     Scan(ReqQueryString, x.u[QUERY := Extent(QueryAt(p) + 1, |p.query|)], Some(QUERY), x.at))
  {
    hide Stands, ScanFrom, FieldChar, QueryAt;
    StandsBoth(t, QueryAt(p), ['?'], p.query);
    ScanQuery(t, QueryAt(p), p.query, x);
  }

  lemma ScanFragmentPart(t: ByteString, p: Parts, x: Scan)
    requires |t| < TWO_16 && p.fragment != [] && (forall c <- p.fragment :: FieldChar(FRAGMENT, c))
    requires Stands(t, FragmentAt(p), PrintedFragment(p)) && |t| == FragmentAt(p) + |PrintedFragment(p)|
    requires (x.s == ReqPath || x.s == ReqQueryString) && x.last != Some(FRAGMENT) && p.fragment[0] != '#'
    ensures ScanFrom(t, FragmentAt(p), x)
         == Some(Scan(ReqFragment, x.u[FRAGMENT := Extent(FragmentAt(p) + 1, |p.fragment|)], Some(FRAGMENT), x.at))
  {
    hide Stands, ScanFrom, FieldChar, FragmentAt;
    StandsBoth(t, FragmentAt(p), ['#'], p.fragment);
    ScanFragment(t, FragmentAt(p), p.fragment, x);
    ScanEnds(t, Scan(ReqFragment, x.u[FRAGMENT := Extent(FragmentAt(p) + 1, |p.fragment|)], Some(FRAGMENT), x.at));
  }

  lemma ScanBack(t: ByteString, p: Parts, x: Scan)
    requires PartsOk(p) && AllStand(t, p) && |t| < TWO_16
    requires x == Scan(ReqPath, AuthorityFields(p), Some(PATH), x.at)
    ensures var r := ScanFrom(t, QueryAt(p), x);
      r.Some? && r.value.u == ScannedFields(p) && r.value.at == x.at
  {
    hide Stands, ScanFrom, FieldChar, PrintedPort, PrintedUser, AuthorityFields, GetPath, IsHostChar, IsUserInfoChar,
      QueryAt;
    var y := x;
    if p.query != [] {
      ScanQueryPart(t, p, x);
      y := Scan(ReqQueryString, x.u[QUERY := Extent(QueryAt(p) + 1, |p.query|)], Some(QUERY), x.at);
    }
    if p.fragment != [] {
      ScanFragmentPart(t, p, y);
    } else {
      ScanEnds(t, y);
    }
  }

  lemma ScanEnds(t: ByteString, x: Scan)
    ensures ScanFrom(t, |t|, x) == Some(x)
  {
  }

  // The authority of a printed Uri, taken apart.
  function AuthorityParts(p: Parts): Authority {
    var user := if p.userinfo == [] then None else Some(Extent(AuthorityAt(p), |p.userinfo|));
    var n := HostAt(p) + |p.host|;
    var host := Extent(HostAt(p), |p.host|);
    if IsDefaultPort(p) then Authority(Host, host, None, user)
    else Authority(Port, host, Some(Extent(n + 1, |Decimal(p.port)|)), user)
  }

  lemma HostWhole(t: ByteString, p: Parts, x: Extent)
    requires PartsOk(p) && HostName(p.host) && AllStand(t, p) && |t| < TWO_16 && x.off == AuthorityAt(p)
    ensures PathAt(p) <= |t|
    ensures HostFrom(t, AuthorityAt(p), PathAt(p), HostBegin(x, p.userinfo != [])) == Some(AuthorityParts(p))
  {
    hide Stands, HostFrom, FieldChar, IsUserInfoChar, IsHostChar, GetPath, PrintedQuery, PrintedFragment, IsDefaultPort,
      Decimal, PrintedPort, HostName;
    var a, h, end := AuthorityAt(p), HostAt(p), PathAt(p);
    StandsHead(t, end, GetPath(p));
    var y := HostBegin(x, false);
    if p.userinfo != [] {
      StandsBoth(t, a, p.userinfo, ['@']);
      UserPart(t, a, p.userinfo, end, x);
      y := Authority(HostStart, Extent(a, 0), None, Some(Extent(a, |p.userinfo|)));
    }
    HostEnd(t, p, y);
  }

  lemma HostEnd(t: ByteString, p: Parts, y: Authority)
    requires p.host != [] && HostName(p.host) && AllStand(t, p) && |t| < TWO_16 && PathAt(p) <= |t|
    requires y.s.HostStart? && y.host.len == 0 && y.port.None?
    requires y.userinfo == if p.userinfo == [] then None else Some(Extent(AuthorityAt(p), |p.userinfo|))
    ensures HostFrom(t, HostAt(p), PathAt(p), y) == Some(AuthorityParts(p))
  {
    hide Stands, HostFrom, IsHostChar, GetPath, PrintedQuery, PrintedFragment, IsDefaultPort, Decimal, IsNum,
      PrintedUser;
    var h := HostAt(p);
    StandsBoth(t, h, p.host, PrintedPort(p));
    if IsDefaultPort(p) {
      HostPart(t, h, p.host, [], PathAt(p), y);
    } else {
      StandsBoth(t, h + |p.host|, [':'], Decimal(p.port));
      DecimalBack(p.port);
      HostPart(t, h, p.host, Decimal(p.port), PathAt(p), y);
    }
  }

  // A printed Uri is split into the parts it was printed from.
  lemma SplitPrinted(t: ByteString, p: Parts)
    requires PartsOk(p) && HostName(p.host) && AllStand(t, p) && |t| < TWO_16
    ensures SplitFields(t, false) == Some(WithAuthority(ScannedFields(p), AuthorityParts(p)))
  {
    hide Stands, HostFrom, ScanFrom, PartsOk, WithAuthority, AuthorityParts, HostBegin, GetPath, PrintedPort,
      PrintedUser;
    ScanWhole(t, p);
    HostWhole(t, p, ScannedFields(p)[HOST]);
    NotEmpty(p);
  }

  lemma NotEmpty(p: Parts)
    requires PartsOk(p)
    ensures p.scheme != [] && p.host != []
  {
  }

  lemma PieceStands(t: ByteString, u: UrlSplit.Fields, f: Field, at: nat, w: ByteString)
    requires if f in u then u[f] == Extent(at, |w|) && Stands(t, at, w) else w == []
    ensures Piece(t, u, f) == w
  {
    if f in u {
      StandsPiece(t, at, w);
    }
  }

  // Where the fields of the printed Uri are found.
  lemma FieldTable(p: Parts)
    ensures var u := ScannedFields(p);
      && SCHEMA in u && u[SCHEMA] == Extent(0, |p.scheme|) && PATH in u && u[PATH] == Extent(PathAt(p), |GetPath(p)|)
      && (QUERY in u <==> p.query != []) && (QUERY in u ==> u[QUERY] == Extent(QueryAt(p) + 1, |p.query|))
      && (FRAGMENT in u <==> p.fragment != [])
      && (FRAGMENT in u ==> u[FRAGMENT] == Extent(FragmentAt(p) + 1, |p.fragment|))
      && PORT !in u && USERINFO !in u
  {
    hide PrintedUser, PrintedPort, PrintedQuery, GetPath;
  }

  lemma FrontPieces(t: ByteString, p: Parts)
    requires AllStand(t, p)
    ensures Piece(t, ScannedFields(p), SCHEMA) == p.scheme && Piece(t, ScannedFields(p), PATH) == GetPath(p)
  {
    hide Stands, Piece, GetPath, PrintedUser, PrintedPort, PrintedQuery, PrintedFragment, ScannedFields;
    FieldTable(p);
    PieceStands(t, ScannedFields(p), SCHEMA, 0, p.scheme);
    PieceStands(t, ScannedFields(p), PATH, PathAt(p), GetPath(p));
  }

  lemma QueryPiece(t: ByteString, p: Parts)
    requires Stands(t, QueryAt(p), PrintedQuery(p))
    ensures Piece(t, ScannedFields(p), QUERY) == p.query
  {
    hide Stands, Piece, QueryAt, FragmentAt, ScannedFields;
    FieldTable(p);
    if p.query != [] {
      StandsBoth(t, QueryAt(p), ['?'], p.query);
    }
    PieceStands(t, ScannedFields(p), QUERY, QueryAt(p) + 1, p.query);
  }

  lemma FragmentPiece(t: ByteString, p: Parts)
    requires Stands(t, FragmentAt(p), PrintedFragment(p))
    ensures Piece(t, ScannedFields(p), FRAGMENT) == p.fragment
  {
    hide Stands, Piece, QueryAt, FragmentAt, ScannedFields;
    FieldTable(p);
    if p.fragment != [] {
      StandsBoth(t, FragmentAt(p), ['#'], p.fragment);
    }
    PieceStands(t, ScannedFields(p), FRAGMENT, FragmentAt(p) + 1, p.fragment);
  }

  lemma PrintedOutside(t: ByteString, p: Parts)
    requires AllStand(t, p)
    ensures var u := WithAuthority(ScannedFields(p), AuthorityParts(p));
      && Piece(t, u, SCHEMA) == p.scheme && Piece(t, u, PATH) == GetPath(p)
      && Piece(t, u, QUERY) == p.query && Piece(t, u, FRAGMENT) == p.fragment
  {
    hide Stands, Piece, GetPath, PathAt, QueryAt, FragmentAt, ScannedFields, WithAuthority, AuthorityParts;
    var u, y := ScannedFields(p), AuthorityParts(p);
    FrontPieces(t, p);
    QueryPiece(t, p);
    FragmentPiece(t, p);
    OutsidePiece(t, u, y, SCHEMA);
    OutsidePiece(t, u, y, PATH);
    OutsidePiece(t, u, y, QUERY);
    OutsidePiece(t, u, y, FRAGMENT);
  }

  lemma OutsidePiece(t: ByteString, u: UrlSplit.Fields, y: Authority, f: Field)
    requires !InAuthority(f)
    ensures Piece(t, WithAuthority(u, y), f) == Piece(t, u, f)
  {
  }

  lemma PrintedInside(t: ByteString, p: Parts)
    requires AllStand(t, p)
    ensures var u := WithAuthority(ScannedFields(p), AuthorityParts(p));
      && Piece(t, u, USERINFO) == p.userinfo && Piece(t, u, HOST) == p.host
      && (PORT in u <==> !IsDefaultPort(p))
      && (PORT in u ==> End(u[PORT]) <= |t| && Piece(t, u, PORT) == Decimal(p.port))
  {
    hide Stands, Piece, GetPath, IsDefaultPort, Decimal, ScannedFields, WithAuthority, PrintedQuery, PrintedFragment;
    FieldTable(p);
    InsideAuthority(ScannedFields(p), AuthorityParts(p));
    var u := WithAuthority(ScannedFields(p), AuthorityParts(p));
    var h := HostAt(p);
    StandsBoth(t, h, p.host, PrintedPort(p));
    if p.userinfo != [] {
      StandsBoth(t, AuthorityAt(p), p.userinfo, ['@']);
    }
    PieceStands(t, u, USERINFO, AuthorityAt(p), p.userinfo);
    PieceStands(t, u, HOST, h, p.host);
    if !IsDefaultPort(p) {
      StandsBoth(t, h + |p.host|, [':'], Decimal(p.port));
      StandsHead(t, h + |p.host| + 1, Decimal(p.port));
      PieceStands(t, u, PORT, h + |p.host| + 1, Decimal(p.port));
    }
  }

  // Creating a Uri from what another one prints gives that one back, with an empty path
  // replaced by "/".
  lemma CreatedPrinted(p: Parts)
    requires PartsOk(p) && HostName(p.host) && |ToString(p)| < TWO_16
    ensures Created(ToString(p)) == Some(p.(path := GetPath(p)))
  {
    hide HostName, ToString, SplitFields, WithAuthority, ScannedFields, AuthorityParts, AllStand, Decimal, Piece;
    var t := ToString(p);
    PrintedStands(p);
    SplitPrinted(t, p);
    PrintedOutside(t, p);
    PrintedInside(t, p);
    DecimalBack(p.port);
    PortPiece(t, WithAuthority(ScannedFields(p), AuthorityParts(p)));
  }

  lemma PortPiece(t: ByteString, u: UrlSplit.Fields)
    ensures PORT in u && End(u[PORT]) <= |t| ==> Piece(t, u, PORT) == t[u[PORT].off..End(u[PORT])]
  {
  }

  // ---- Hosts that are not names -----------------------------------------------------------------

  // Past the host nothing changes it.
  lemma {:induction false} HostFixed(buf: ByteString, p: nat, end: nat, x: Authority)
    requires p <= end <= |buf| && (x.s.PortStart? || x.s.Port?)
    ensures var r := HostFrom(buf, p, end, x); r.Some? ==> r.value.host == x.host
    decreases end - p
  {
    if p < end && IsNum(buf[p]) {
      HostFixed(buf, p + 1, end, HostByte(x, p, buf[p]));
    }
  }

  // At the first byte that a host name cannot have, the host ends or the URL is refused.
  lemma HostStops(buf: ByteString, h: nat, w: ByteString, k: nat, end: nat, x: Authority)
    requires x.s.HostStart? && x.host.len == 0 && k < |w| && h + |w| <= end <= |buf| < TWO_16 && Stands(buf, h, w)
    requires HostName(w[..k]) && !IsHostChar(w[k]) && IsUserInfoChar(w[k])
    ensures var r := HostFrom(buf, h, end, x); r.Some? ==> r.value.host == Extent(h, k)
  {
    hide IsHostChar, IsUserInfoChar;
    assert w == w[..k] + w[k..];
    StandsBoth(buf, h, w[..k], w[k..]);
    StandsHead(buf, h + k, w[k..]);
    NotBracket(w[k]);
    if k > 0 {
      forall c | c in w[..k] ensures c != '[' {
        NotDelimiters(c);
      }
      HostRun(buf, h, w[..k], end, x, h);
      HostStop(buf, h + k, end, x.(s := Host, host := Extent(h, k)));
    }
  }

  lemma NotBracket(c: Byte)
    ensures IsUserInfoChar(c) ==> c != '['
  {
  }

  lemma HostStop(buf: ByteString, p: nat, end: nat, x: Authority)
    requires x.s.Host? && p < end <= |buf| && !IsHostChar(buf[p])
    ensures var r := HostFrom(buf, p, end, x); r.Some? ==> r.value.host == x.host
  {
    hide IsHostChar;
    if buf[p] == ':' {
      HostFixed(buf, p + 1, end, x.(s := PortStart));
    }
  }

  lemma {:induction false} FirstBad(w: ByteString) returns (k: nat)
    requires !HostName(w)
    ensures k < |w| && HostName(w[..k]) && !IsHostChar(w[k])
  {
    hide IsHostChar;
    if !IsHostChar(w[0]) {
      k := 0;
    } else {
      k := FirstBad(w[1..]);
      k := k + 1;
      assert w[..k] == [w[0]] + w[1..][..k - 1];
    }
  }

  // The host that is found in what a Uri with a bracketed address prints is a shorter one.
  lemma HostCut(t: ByteString, p: Parts, x: Extent)
    requires PartsOk(p) && !HostName(p.host) && AllStand(t, p) && |t| < TWO_16 && x.off == AuthorityAt(p)
    ensures PathAt(p) <= |t|
    ensures var r := HostFrom(t, AuthorityAt(p), PathAt(p), HostBegin(x, p.userinfo != []));
      r.Some? ==> r.value.host.len < |p.host|
  {
    hide Stands, HostFrom, FieldChar, IsUserInfoChar, IsHostChar, GetPath, PrintedQuery, PrintedFragment, HostName,
      PrintedPort, AllStand;
    FrontStands(t, p);
    var a, h, end := AuthorityAt(p), HostAt(p), PathAt(p);
    StandsHead(t, end, GetPath(p));
    StandsBoth(t, h, p.host, PrintedPort(p));
    var k := FirstBad(p.host);
    var y := HostBegin(x, false);
    if p.userinfo != [] {
      StandsBoth(t, a, p.userinfo, ['@']);
      UserPart(t, a, p.userinfo, end, x);
      y := Authority(HostStart, Extent(a, 0), None, Some(Extent(a, |p.userinfo|)));
    }
    HostStops(t, h, p.host, k, end, y);
  }

  lemma AddressLost(p: Parts)
    requires PartsOk(p) && !HostName(p.host) && |ToString(p)| < TWO_16
    ensures var r := Created(ToString(p)); r.Some? ==> r.value.host != p.host
  {
    hide HostName, ToString, WithAuthority, ScannedFields, AllStand, HostFrom, ScanFrom, HostBegin, PathAt, AuthorityAt,
      PartsOk, PortValue, SplitOk;
    var t := ToString(p);
    PrintedStands(p);
    ScanWhole(t, p);
    HostField(p);
    HostCut(t, p, ScannedFields(p)[HOST]);
    var y := HostFrom(t, AuthorityAt(p), PathAt(p), HostBegin(ScannedFields(p)[HOST], p.userinfo != []));
    if y.Some? {
      FieldTable(p);
      InsideAuthority(ScannedFields(p), y.value);
    }
  }

  lemma HostField(p: Parts)
    ensures var u := ScannedFields(p);
      SCHEMA in u && HOST in u && u[HOST].off == AuthorityAt(p) && End(u[HOST]) == PathAt(p)
  {
  }

  predicate Agree(p: Parts, r: Parts) {
    && r.scheme == p.scheme && r.userinfo == p.userinfo && r.host == p.host
    && GetPort(r) == GetPort(p) && GetPath(r) == GetPath(p) && r.query == p.query && r.fragment == p.fragment
  }

  // The normal form. For every URL below 2^16 bytes that Create accepts, with a scheme and
  // a normal form below 2^16 bytes too: the printed form is accepted with the same scheme,
  // user information, host, port, path, query and fragment exactly when the host is a
  // name, and then it prints as itself. A bracketed address is printed without its
  // brackets.
  lemma NormalForm(url: ByteString)
    requires |url| < TWO_16 && Created(url).Some? && Created(url).value.scheme != []
    requires |ToString(Created(url).value)| < TWO_16
    ensures var (p, r) := (Created(url).value, Created(ToString(Created(url).value)));
      && (r.Some? && Agree(p, r.value) <==> HostName(p.host))
      && (HostName(p.host) ==> ToString(r.value) == ToString(p))
  {
    hide Created, PartsOk, Decimal, HostName;
    CreatedOk(url);
    var p := Created(url).value;
    if HostName(p.host) {
      CreatedPrinted(p);
    } else {
      AddressLost(p);
    }
  }

  // ---- Addresses ------------------------------------------------------------------------------------

  function AddressUrl(scheme: ByteString, w: ByteString): ByteString {
    scheme + (COLON_SLASHES + (['['] + (w + [']'])))
  }

  predicate AddressOk(scheme: ByteString, w: ByteString) {
    && scheme != [] && (forall c <- scheme :: FieldChar(SCHEMA, c))
    && w != [] && (forall c <- w :: V6Char(c)) && |AddressUrl(scheme, w)| < TWO_16
  }

  lemma AddressStands(scheme: ByteString, w: ByteString)
    ensures var (t, a) := (AddressUrl(scheme, w), |scheme| + 3);
      && Stands(t, 0, scheme) && Stands(t, |scheme|, COLON_SLASHES) && Stands(t, a, ['[']) && Stands(t, a + 1, w)
      && Stands(t, a + 1 + |w|, [']']) && |t| == a + 2 + |w|
  {
    var t, a := AddressUrl(scheme, w), |scheme| + 3;
    assert |COLON_SLASHES| == 3;
    assert t[0..] == t && t[|scheme|..] == COLON_SLASHES + (['['] + (w + [']']));
    assert t[a..] == ['['] + (w + [']']) && t[a + 1..] == w + [']'] && t[a + 1 + |w|..] == [']'];
    StandsThere(t, 0, scheme, COLON_SLASHES + (['['] + (w + [']'])));
    StandsThere(t, |scheme|, COLON_SLASHES, ['['] + (w + [']']));
    StandsThere(t, a, ['['], w + [']']);
    StandsThere(t, a + 1, w, [']']);
    StandsThere(t, a + 1 + |w|, [']'], []);
  }

  lemma StandsThere(t: ByteString, p: nat, w: ByteString, rest: ByteString)
    requires p <= |t| && t[p..] == w + rest
    ensures Stands(t, p, w)
  {
    assert forall i :: 0 <= i < |w| ==> t[p + i] == t[p..][i] == w[i];
  }

  lemma V6Chars(c: Byte)
    ensures V6Char(c) ==> IsUserInfoChar(c) && c != ']' && c != '['
  {
  }

  lemma Brackets()
    ensures ParseUrlChar(ReqServerStart, '[') == ReqServer && ParseUrlChar(ReqServer, ']') == ReqServer
  {
  }

  lemma ScanAddress(t: ByteString, scheme: ByteString, w: ByteString)
    requires AddressOk(scheme, w) && t == AddressUrl(scheme, w)
    ensures var (a, n) := (|scheme| + 3, |w| + 2);
      ScanFrom(t, 0, ScanStart(false))
      == Some(Scan(ReqServer, map[SCHEMA := Extent(0, |scheme|), HOST := Extent(a, n)], Some(HOST), false))
  {
    hide ParseUrlChar, ScanFrom, FieldChar, IsUserInfoChar, Stands, V6Char, AddressUrl;
    var a, n := |scheme| + 3, |w| + 2;
    AddressStands(scheme, w);
    ScanScheme(t, scheme);
    Brackets();
    StandsHead(t, a, ['[']);
    StandsHead(t, a + n - 1, [']']);
    var u: UrlSplit.Fields := map[SCHEMA := Extent(0, |scheme|)];
    var x1 := Scan(ReqServer, u[HOST := Extent(a, 1)], Some(HOST), false);
    OneMore(t, a, Scan(ReqServerStart, u, Some(SCHEMA), false), x1);
    forall c | c in w ensures Keeps(HOST, c) {
      V6Chars(c);
    }
    ScanOn(t, a + 1, w, x1, HOST);
    var x2 := Scan(ReqServer, u[HOST := Extent(a, n - 1)], Some(HOST), false);
    assert x1.u[HOST := Extent(a, n - 1)] == x2.u;
    var x3 := Scan(ReqServer, u[HOST := Extent(a, n)], Some(HOST), false);
    assert x2.u[HOST := Extent(a, n)] == x3.u;
    OneMore(t, a + n - 1, x2, x3);
    ScanEnd(t, x3);
    assert x3.u == map[SCHEMA := Extent(0, |scheme|), HOST := Extent(a, n)];
  }

  lemma ScanEnd(t: ByteString, x: Scan)
    ensures ScanFrom(t, |t|, x) == Some(x)
  {
  }

  lemma V6Byte(x: Authority, p: nat, ch: Byte, off: nat)
    requires V6Char(ch) && ch != ']' && p + 1 < TWO_16
    requires if x.s.V6? then x.host.off == off && End(x.host) == p else x.s.V6Start? && off == p && x.host.len == 0
    ensures HostByte(x, p, ch) == x.(s := V6, host := Extent(off, p + 1 - off))
  {
    hide V6Char;
  }

  lemma {:induction false} V6Run(buf: ByteString, p: nat, w: ByteString, end: nat, x: Authority, off: nat)
    requires Stands(buf, p, w) && p + |w| <= end <= |buf| < TWO_16 && forall c <- w :: V6Char(c) && c != ']'
    requires if x.s.V6? then x.host.off == off && End(x.host) == p else x.s.V6Start? && off == p && x.host.len == 0
    ensures w != [] ==>
      HostFrom(buf, p, end, x) == HostFrom(buf, p + |w|, end, x.(s := V6, host := Extent(off, p + |w| - off)))
    decreases |w|
  {
    hide V6Char, HostFrom, HostByte;
    if w != [] {
      assert buf[p + 0] == w[0];
      var y := x.(s := V6, host := Extent(off, p + 1 - off));
      V6Byte(x, p, w[0], off);
      StandsTail(buf, p, w);
      HostStep(buf, p, end, x, y);
      V6Run(buf, p + 1, w[1..], end, y, off);
    }
  }

  lemma AddressChars(scheme: ByteString, w: ByteString)
    requires AddressOk(scheme, w)
    ensures forall c <- w :: V6Char(c) && c != ']'
  {
    hide V6Char, AddressUrl, FieldChar;
    forall c | c in w ensures V6Char(c) && c != ']' {
      V6Chars(c);
    }
  }

  lemma BracketBytes(p: nat, x: Authority)
    ensures x.s.HostStart? ==> HostByte(x, p, '[') == x.(s := V6Start)
    ensures x.s.V6? ==> HostByte(x, p, ']') == x.(s := V6End)
  {
  }

  lemma HostAddress(t: ByteString, scheme: ByteString, w: ByteString)
    requires AddressOk(scheme, w) && t == AddressUrl(scheme, w)
    ensures |t| == |scheme| + 5 + |w|
    ensures HostFrom(t, |scheme| + 3, |t|, HostBegin(Extent(|scheme| + 3, |w| + 2), false))
         == Some(Authority(V6End, Extent(|scheme| + 4, |w|), None, None))
  {
    hide HostFrom, FieldChar, Stands, V6Char, AddressUrl, HostByte, AddressOk;
    var a := |scheme| + 3;
    AddressStands(scheme, w);
    AddressChars(scheme, w);
    WithinUrls(scheme, w);
    BracketBytes(a, HostBegin(Extent(a, |w| + 2), false));
    StandsHead(t, a, ['[']);
    StandsHead(t, a + 1 + |w|, [']']);
    var x := Authority(V6Start, Extent(a, 0), None, None);
    HostStep(t, a, |t|, HostBegin(Extent(a, |w| + 2), false), x);
    V6Run(t, a + 1, w, |t|, x, a + 1);
    var y := x.(s := V6, host := Extent(a + 1, |w|));
    BracketBytes(a + 1 + |w|, y);
    HostStep(t, a + 1 + |w|, |t|, y, y.(s := V6End));
    HostOver(t, y.(s := V6End));
  }

  lemma HostOver(t: ByteString, x: Authority)
    requires x.s.V6End?
    ensures HostFrom(t, |t|, |t|, x) == Some(x)
  {
  }

  // Create accepts the bracketed addresses, and takes for the host what is in the brackets.
  lemma AddressAccepted(scheme: ByteString, w: ByteString)
    requires AddressOk(scheme, w)
    ensures var r := Created(AddressUrl(scheme, w));
      r.Some? && r.value == Parts(scheme, [], w, [], [], [], r.value.port) && |ToString(r.value)| <= |scheme| + |w| + 6
  {
    hide HostFrom, ScanFrom, FieldChar, Stands, V6Char, AddressUrl, AddressOk;
    var t, a := AddressUrl(scheme, w), |scheme| + 3;
    WithinUrls(scheme, w);
    ScanAddress(t, scheme, w);
    HostAddress(t, scheme, w);
    AddressStands(scheme, w);
    StandsPiece(t, 0, scheme);
    StandsPiece(t, a + 1, w);
    var u := map[SCHEMA := Extent(0, |scheme|), HOST := Extent(a + 1, |w|)];
    assert map[SCHEMA := Extent(0, |scheme|), HOST := Extent(a, |w| + 2)][HOST := Extent(a + 1, |w|)] == u;
    assert SplitFields(t, false) == Some(u);
    AddressPrinted(PartsOf(t, u, 0));
  }

  lemma AddressPrinted(p: Parts)
    requires p.userinfo == [] && p.path == [] && p.query == [] && p.fragment == []
    requires p.port == if p.scheme == HTTP || p.scheme == WS then 80 else if p.scheme == HTTPS then 443 else 0
    ensures |ToString(p)| <= |p.scheme| + |p.host| + 6
  {
    assert |COLON_SLASHES| == 3 && |Decimal(0)| == 1;
  }

  lemma WithinUrls(scheme: ByteString, w: ByteString)
    requires AddressOk(scheme, w)
    ensures |AddressUrl(scheme, w)| < TWO_16 && scheme != [] && w != [] && AddressUrl(scheme, w) != []
  {
  }

  // So the normal form does fail: no address with a colon, as every IP version 6 address
  // has, comes back from the printed form of the Uri that was made of it.
  lemma AddressNeverBack(scheme: ByteString, w: ByteString)
    requires AddressOk(scheme, w) && ':' in w && |scheme| + |w| + 6 < TWO_16
    ensures |AddressUrl(scheme, w)| < TWO_16 && Created(AddressUrl(scheme, w)).Some?
    ensures var p := Created(AddressUrl(scheme, w)).value;
      |ToString(p)| < TWO_16 && var r := Created(ToString(p)); !(r.Some? && Agree(p, r.value))
  {
    hide Created, ToString, AddressUrl, Agree, AddressOk;
    WithinUrls(scheme, w);
    AddressAccepted(scheme, w);
    NormalForm(AddressUrl(scheme, w));
  }
}
