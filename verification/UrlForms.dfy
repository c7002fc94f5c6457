// Targets that are no whole URLs: the authority of a CONNECT request, and a path.
module UrlForms {
  import opened Bytes
  import opened HttpTypes
  import opened UrlChars
  import opened HttpFraming
  import opened UrlSplit
  import opened Uris
  import opened UriNormal

  // ---- Authorities ---------------------------------------------------------------------------

  predicate HostOk(host: ByteString) { host != [] && HostName(host) }

  lemma HostByteIs(c: Byte)
    ensures IsHostChar(c) || IsNum(c) || c == ':' ==> IsUserInfoChar(c)
  {
  }

  lemma StandsAt(t: ByteString, p: nat, w: ByteString)
    requires p + |w| <= |t| && t[p..p + |w|] == w
    ensures Stands(t, p, w)
  {
    forall i | 0 <= i < |w| ensures t[p + i] == w[i] {
      assert t[p..p + |w|][i] == w[i];
    }
  }

  // The whole text is scanned as one authority.
  lemma ScanAuthority(t: ByteString)
    requires t != [] && |t| < TWO_16 && forall c <- t :: IsUserInfoChar(c)
    ensures ScanFrom(t, 0, ScanStart(true))
         == Some(Scan(ReqServer, map[HOST := Extent(0, |t|)], Some(HOST), false))
  {
    hide ScanFrom, IsUserInfoChar, Stands, ParseUrlChar;
    StandsAt(t, 0, t);
    ScanHost(t, 0, t, ScanStart(true));
    var none: UrlSplit.Fields := map[];
    assert none[HOST := Extent(0, |t|)] == map[HOST := Extent(0, |t|)];
    ScanEnds(t, Scan(ReqServer, map[HOST := Extent(0, |t|)], Some(HOST), false));
  }

  // For CONNECT a host and a port are what there must be.
  lemma ConnectForm(host: ByteString, port: ByteString)
    requires HostOk(host) && port != [] && (forall c <- port :: IsNum(c)) && |host| + 1 + |port| < TWO_16
    ensures SplitFields(host + [':'] + port, true)
         == Some(map[HOST := Extent(0, |host|), PORT := Extent(|host| + 1, |port|)])
  {
    hide ScanFrom, HostFrom, IsUserInfoChar, IsHostChar, IsNum, Stands;
    var t := host + [':'] + port;
    forall c | c in t ensures IsUserInfoChar(c) {
      HostByteIs(c);
      assert c in host ==> IsHostChar(c);
    }
    ScanAuthority(t);
    StandsAt(t, 0, host);
    StandsAt(t, |host|, [':']);
    StandsAt(t, |host| + 1, port);
    var x := HostBegin(Extent(0, |t|), false);
    HostPart(t, 0, host, port, |t|, x);
    var all := map[HOST := Extent(0, |t|)];
    var y := x.(s := Port, host := Extent(0, |host|), port := Some(Extent(|host| + 1, |port|)));
    var u := WithAuthority(all, y);
    assert u == map[HOST := Extent(0, |host|), PORT := Extent(|host| + 1, |port|)];
    assert u.Keys == {HOST, PORT};
  }

  // A host alone is refused.
  lemma ConnectNeedsPort(host: ByteString)
    requires HostOk(host) && |host| < TWO_16
    ensures SplitFields(host, true).None?
  {
    hide ScanFrom, HostFrom, IsUserInfoChar, IsHostChar, Stands;
    forall c | c in host ensures IsUserInfoChar(c) {
      HostByteIs(c);
    }
    ScanAuthority(host);
    StandsAt(host, 0, host);
    var x := HostBegin(Extent(0, |host|), false);
    HostPart(host, 0, host, [], |host|, x);
    var u := WithAuthority(map[HOST := Extent(0, |host|)], x.(s := Host, host := Extent(0, |host|)));
    assert u == map[HOST := Extent(0, |host|)];
    assert PORT !in u.Keys;
  }

  // And so is a path.
  lemma ConnectNeedsHost(path: ByteString)
    requires path != [] && path[0] == '/'
    ensures var r := ScanFrom(path, 0, ScanStart(true)); r.Some? ==> HOST !in r.value.u && SCHEMA !in r.value.u
    ensures SplitFields(path, true).None?
  {
    hide ScanFrom;
    var x := Scan(ReqPath, map[PATH := Started(0)], Some(PATH), false);
    var none: UrlSplit.Fields := map[];
    assert none[PATH := Started(0)] == x.u;
    OneMore(path, 0, ScanStart(true), x);
    NoHost(path, 1, x);
  }

  predicate Behind(s: State) {
    s.ReqPath? || s.ReqQueryStringStart? || s.ReqQueryString? || s.ReqFragmentStart? || s.ReqFragment?
  }

  lemma BehindStays(s: State, c: Byte)
    requires Behind(s)
    ensures ParseUrlChar(s, c).Dead? || Behind(ParseUrlChar(s, c))
  {
  }

  lemma {:induction false} NoHost(t: ByteString, p: nat, x: Scan)
    requires p <= |t| && Behind(x.s) && HOST !in x.u && SCHEMA !in x.u
    ensures var r := ScanFrom(t, p, x); r.Some? ==> HOST !in r.value.u && SCHEMA !in r.value.u
    decreases |t| - p
  {
    hide ParseUrlChar;
    if p < |t| {
      BehindStays(x.s, t[p]);
      var x' := ScanByte(x, p, t[p]);
      if !x'.s.Dead? {
        NoHost(t, p + 1, x');
      }
    }
  }

  // ---- Paths ----------------------------------------------------------------------------------

  // A path, a query and a fragment, the last two of which may be missing.
  datatype Local = Local(path: ByteString, query: ByteString, fragment: ByteString)

  predicate LocalOk(l: Local) {
    && l.path != [] && l.path[0] == '/' && (forall c <- l.path :: FieldChar(PATH, c))
    && (forall c <- l.query :: FieldChar(QUERY, c))
    && (forall c <- l.fragment :: FieldChar(FRAGMENT, c)) && (l.fragment != [] ==> l.fragment[0] != '#')
  }

  function QueryText(l: Local): ByteString { if l.query == [] then [] else ['?'] + l.query }
  function FragmentText(l: Local): ByteString { if l.fragment == [] then [] else ['#'] + l.fragment }
  function LocalText(l: Local): ByteString { l.path + QueryText(l) + FragmentText(l) }

  function LocalFields(l: Local): UrlSplit.Fields {
    var u: UrlSplit.Fields := map[PATH := Extent(0, |l.path|)];
    var u1 := if l.query == [] then u else u[QUERY := Extent(|l.path| + 1, |l.query|)];
    if l.fragment == [] then u1 else u1[FRAGMENT := Extent(|l.path| + |QueryText(l)| + 1, |l.fragment|)]
  }

  lemma LocalStands(l: Local)
    ensures var (t, n) := (LocalText(l), |l.path|);
      && Stands(t, 0, l.path) && Stands(t, n, QueryText(l)) && Stands(t, n + |QueryText(l)|, FragmentText(l))
      && |t| == n + |QueryText(l)| + |FragmentText(l)|
  {
    hide Stands, QueryText, FragmentText;
    var t := LocalText(l);
    StandsAt(t, 0, l.path);
    StandsAt(t, |l.path|, QueryText(l));
    StandsAt(t, |l.path| + |QueryText(l)|, FragmentText(l));
  }

  lemma PathScan(t: ByteString, path: ByteString)
    requires Stands(t, 0, path) && path != [] && path[0] == '/' && (forall c <- path :: FieldChar(PATH, c))
    requires |t| < TWO_16
    ensures ScanFrom(t, 0, ScanStart(false))
         == ScanFrom(t, |path|, Scan(ReqPath, map[PATH := Extent(0, |path|)], Some(PATH), false))
  {
    hide ScanFrom, FieldChar, Stands, ParseUrlChar;
    SlashBegins();
    ScanNew(t, 0, path, ScanStart(false), PATH);
    var none: UrlSplit.Fields := map[];
    assert none[PATH := Extent(0, |path|)] == map[PATH := Extent(0, |path|)];
  }

  // Without a scheme the fields of a URL are these parts.
  lemma LocalForm(l: Local)
    requires LocalOk(l) && |LocalText(l)| < TWO_16
    ensures SplitFields(LocalText(l), false) == Some(LocalFields(l))
  {
    hide ScanFrom, FieldChar, Stands, ParseUrlChar, LocalText;
    var t, n, q := LocalText(l), |l.path|, |l.path| + |QueryText(l)|;
    LocalStands(l);
    PathScan(t, l.path);
    var x := Scan(ReqPath, map[PATH := Extent(0, n)], Some(PATH), false);
    if l.query != [] {
      StandsBoth(t, n, ['?'], l.query);
      ScanQuery(t, n, l.query, x);
      x := Scan(ReqQueryString, x.u[QUERY := Extent(n + 1, |l.query|)], Some(QUERY), false);
    }
    if l.fragment != [] {
      StandsBoth(t, q, ['#'], l.fragment);
      ScanFragment(t, q, l.fragment, x);
      x := Scan(ReqFragment, x.u[FRAGMENT := Extent(q + 1, |l.fragment|)], Some(FRAGMENT), false);
    }
    ScanEnds(t, x);
  }

  lemma SlashBegins()
    ensures ParseUrlChar(ReqSpacesBeforeUrl, '/') == ReqPath && ParseUrlChar(ReqServerStart, '/') == ReqPath
    ensures forall c: Byte :: FieldChar(PATH, c) ==> Keeps(PATH, c)
  {
  }
}
