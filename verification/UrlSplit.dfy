// http_parser_parse_url and http_parse_host: a URL split into its fields.
module UrlSplit {
  import opened Bytes
  import opened HttpTypes
  import opened UrlChars
  import opened HttpFraming

  datatype Field = SCHEMA | HOST | PORT | PATH | QUERY | FRAGMENT | USERINFO

  // Offset and length of a field in the buffer; both have 16 bits.
  datatype Extent = Extent(off: nat, len: nat)

  function End(x: Extent): nat { x.off + x.len }

  // The fields that are set, and where they are.
  type Fields = map<Field, Extent>

  datatype Url = Url(fields: Fields, port: nat)

  function Started(p: nat): Extent { Extent(p % TWO_16, 1) }
  function Longer(x: Extent): Extent { x.(len := (x.len + 1) % TWO_16) }

  // ---- The scan over the whole URL --------------------------------------------------------

  function FieldOf(s: State): Option<Field> {
    if s.ReqSchema? then Some(SCHEMA)
    else if s.ReqServer? || s.ReqServerWithAt? then Some(HOST)
    else if s.ReqPath? then Some(PATH)
    else if s.ReqQueryString? then Some(QUERY)
    else if s.ReqFragment? then Some(FRAGMENT)
    else None
  }

  function Record(u: Fields, last: Option<Field>, f: Field, p: nat): Fields {
    if last == Some(f) && f in u then u[f := Longer(u[f])] else u[f := Started(p)]
  }

  datatype Scan = Scan(s: State, u: Fields, last: Option<Field>, at: bool)

  // One byte of the URL; a dead state ends the scan.
  function ScanByte(x: Scan, p: nat, ch: Byte): Scan {
    var s := ParseUrlChar(x.s, ch);
    match FieldOf(s)
    case None => x.(s := s)
    case Some(f) => Scan(s, Record(x.u, x.last, f, p), Some(f), x.at || s.ReqServerWithAt?)
  }

  function ScanFrom(buf: ByteString, p: nat, x: Scan): Option<Scan>
    requires p <= |buf|
    decreases |buf| - p
  {
    if p == |buf| then Some(x)
    else
      var x' := ScanByte(x, p, buf[p]);
      if x'.s.Dead? then None else ScanFrom(buf, p + 1, x')
  }

  function ScanStart(connect: bool): Scan {
    Scan(if connect then ReqServerStart else ReqSpacesBeforeUrl, map[], None, false)
  }

  // ---- The scan over the authority ----------------------------------------------------------

  datatype HostState =
    | HostDead | UserinfoStart | Userinfo | HostStart | V6Start | Host | V6 | V6End | ZoneStart | Zone
    | PortStart | Port

  function ParseHostChar(s: HostState, ch: Byte): HostState {
    match s
    case UserinfoStart => UserinfoChar(ch)
    case Userinfo => UserinfoChar(ch)
    case HostStart => if ch == '[' then V6Start else if IsHostChar(ch) then Host else HostDead
    case Host => if IsHostChar(ch) then Host else if ch == ':' then PortStart else HostDead
    case V6End => if ch == ':' then PortStart else HostDead
    case V6 => if ch == ']' then V6End else if V6Char(ch) then V6 else if ch == '%' then ZoneStart else HostDead
    case V6Start => if V6Char(ch) then V6 else HostDead
    case Zone => if ch == ']' then V6End else if ZoneChar(ch) then Zone else HostDead
    case ZoneStart => if ZoneChar(ch) then Zone else HostDead
    case Port => if IsNum(ch) then Port else HostDead
    case PortStart => if IsNum(ch) then Port else HostDead
    case HostDead => HostDead
  }

  function UserinfoChar(ch: Byte): HostState {
    if ch == '@' then HostStart else if IsUserInfoChar(ch) then Userinfo else HostDead
  }

  predicate V6Char(ch: Byte) { IsHex(ch) || ch == ':' || ch == '.' }
  predicate ZoneChar(ch: Byte) { IsAlphaNum(ch) || ch == '%' || ch == '.' || ch == '-' || ch == '_' || ch == '~' }

  // The parts of the authority found so far; the host starts out empty.
  datatype Authority = Authority(s: HostState, host: Extent, port: Option<Extent>, userinfo: Option<Extent>)

  function HostByte(x: Authority, p: nat, ch: Byte): Authority {
    var s := ParseHostChar(x.s, ch);
    var y := x.(s := s);
    match s
    case Host => y.(host := if x.s.Host? then Longer(x.host) else Extent(p % TWO_16, (x.host.len + 1) % TWO_16))
    case V6 => y.(host := if x.s.V6? then Longer(x.host) else Extent(p % TWO_16, (x.host.len + 1) % TWO_16))
    case ZoneStart => y.(host := Longer(x.host))
    case Zone => y.(host := Longer(x.host))
    case Port => y.(port := Some(if x.s.Port? && x.port.Some? then Longer(x.port.value) else Started(p)))
    case Userinfo =>
      y.(userinfo := Some(if x.s.Userinfo? && x.userinfo.Some? then Longer(x.userinfo.value) else Started(p)))
    case _ => y
  }

  function HostFrom(buf: ByteString, p: nat, end: nat, x: Authority): Option<Authority>
    requires p <= end <= |buf|
    decreases end - p
  {
    if p == end then if x.s.Host? || x.s.V6End? || x.s.Port? then Some(x) else None
    else
      var x' := HostByte(x, p, buf[p]);
      if x'.s.HostDead? then None else HostFrom(buf, p + 1, end, x')
  }

  function HostBegin(x: Extent, at: bool): Authority {
    Authority(if at then UserinfoStart else HostStart, Extent(x.off, 0), None, None)
  }

  function WithAuthority(u: Fields, x: Authority): Fields {
    var u1 := u[HOST := x.host];
    var u2 := if x.userinfo.Some? then u1[USERINFO := x.userinfo.value] else u1;
    if x.port.Some? then u2[PORT := x.port.value] else u2
  }

  // ---- The whole of http_parser_parse_url -----------------------------------------------------

  // The fields before the port is converted; none if the URL is refused.
  function SplitFields(buf: ByteString, connect: bool): Option<Fields> {
    if buf == [] then None
    else match ScanFrom(buf, 0, ScanStart(connect))
      case None => None
      case Some(x) =>
        if SCHEMA in x.u && HOST !in x.u then None
        else if HOST !in x.u then if connect then None else Some(x.u)
        else if End(x.u[HOST]) > |buf| then None   // a wrapped offset; not for URLs below 2^16 bytes
        else match HostFrom(buf, x.u[HOST].off, End(x.u[HOST]), HostBegin(x.u[HOST], x.at))
          case None => None
          case Some(y) =>
            var u := WithAuthority(x.u, y);
            if connect && u.Keys != {HOST, PORT} then None else Some(u)
  }

  // ---- What the scan keeps ------------------------------------------------------------------

  // States and fields in the order in which a URL goes through them.
  function Phase(s: State): nat {
    match s
    case ReqSpacesBeforeUrl => 0 case ReqSchema => 1 case ReqSchemaSlash => 2 case ReqSchemaSlashSlash => 3
    case ReqServerStart => 4 case ReqServer => 5 case ReqServerWithAt => 5 case ReqPath => 6
    case ReqQueryStringStart => 7 case ReqQueryString => 8 case ReqFragmentStart => 9 case ReqFragment => 10
    case _ => 11
  }

  function PhaseOf(f: Field): nat {
    match f
    case SCHEMA => 1 case HOST => 5 case PATH => 6 case QUERY => 8 case FRAGMENT => 10
    case PORT => 12 case USERINFO => 12
  }

  // The bytes that a field can hold.
  predicate FieldChar(f: Field, c: Byte) {
    match f
    case SCHEMA => IsAlpha(c)
    case HOST => IsUserInfoChar(c) || c == '[' || c == ']' || c == '@'
    case PATH => IsUrlChar(c)
    case QUERY => IsUrlChar(c) || c == '?'
    case FRAGMENT => IsUrlChar(c) || c == '?' || c == '#'
    case PORT => IsNum(c)
    case USERINFO => IsUserInfoChar(c)
  }

  predicate Inside(x: Extent, p: nat) { 0 < x.len && End(x) <= p }

  ghost predicate Holds(buf: ByteString, f: Field, x: Extent) {
    End(x) <= |buf| && forall i :: x.off <= i < End(x) ==> FieldChar(f, buf[i])
  }

  // With a scheme or in a CONNECT request the path starts with a slash; a fragment
  // does not start with '#'.
  predicate FirstOk(f: Field, hosted: bool, c: Byte) {
    (f.PATH? && hosted ==> c == '/') && (f.FRAGMENT? ==> c != '#')
  }

  predicate Hosted(u: Fields) { SCHEMA in u || HOST in u }

  ghost predicate FieldOk(buf: ByteString, p: nat, u: Fields, phase: nat, f: Field)
    requires f in u
  {
    Inside(u[f], p) && Holds(buf, f, u[f]) && PhaseOf(f) <= phase && FirstOk(f, Hosted(u), buf[u[f].off])
  }

  ghost predicate InOrder(u: Fields) {
    forall f, g :: f in u && g in u && PhaseOf(f) < PhaseOf(g) ==> End(u[f]) <= u[g].off
  }

  ghost predicate FieldsOk(buf: ByteString, p: nat, u: Fields, phase: nat) {
    InOrder(u) && forall f <- u :: FieldOk(buf, p, u, phase, f)
  }

  ghost predicate ScanOk(buf: ByteString, p: nat, x: Scan) {
    && p <= |buf| && Phase(x.s) <= 10
    && FieldsOk(buf, p, x.u, Phase(x.s))
    && (FieldOf(x.s).Some? ==> x.last == FieldOf(x.s))
    && (x.last.Some? ==> x.last.value in x.u && (PhaseOf(x.last.value) == Phase(x.s) ==> End(x.u[x.last.value]) == p))
    && (Phase(x.s) == 0 ==> x.u == map[])
    && (1 <= Phase(x.s) <= 3 ==> SCHEMA in x.u)
  }

  lemma PhaseGrows(s: State, ch: Byte)
    requires Phase(s) <= 10 && !ParseUrlChar(s, ch).Dead?
    ensures var s' := ParseUrlChar(s, ch);
      && Phase(s) <= Phase(s') <= 10 && (Phase(s) == 0 ==> Phase(s') == 1 || Phase(s') == 6)
      && (Phase(s) == 0 || Phase(s') > 3 || (1 <= Phase(s) <= 3))
      && (FieldOf(s').Some? ==> PhaseOf(FieldOf(s').value) == Phase(s') && FieldChar(FieldOf(s').value, ch))
      && (s'.ReqPath? && !s.ReqPath? && Phase(s) > 0 ==> ch == '/')
      && (s'.ReqFragment? && !s.ReqFragment? ==> ch != '#')
  {
  }

  lemma RecordNew(buf: ByteString, p: nat, u: Fields, phase: nat, f: Field)
    requires FieldsOk(buf, p, u, phase) && phase <= PhaseOf(f) && p < |buf| < TWO_16
    requires (forall g <- u :: PhaseOf(g) < PhaseOf(f)) && FieldChar(f, buf[p])
    requires FirstOk(f, Hosted(u), buf[p]) && PhaseOf(f) <= 10
    ensures FieldsOk(buf, p + 1, u[f := Started(p)], PhaseOf(f))
  {
    hide FieldChar, InOrder;
    var u' := u[f := Started(p)];
    forall g | g in u' ensures FieldOk(buf, p + 1, u', PhaseOf(f), g) {
      assert g != f ==> g in u && FieldOk(buf, p, u, phase, g);
    }
    NewInOrder(buf, p, u, phase, f);
  }

  lemma NewInOrder(buf: ByteString, p: nat, u: Fields, phase: nat, f: Field)
    requires FieldsOk(buf, p, u, phase) && p < TWO_16 && forall g <- u :: PhaseOf(g) < PhaseOf(f)
    ensures InOrder(u[f := Started(p)])
  {
    hide FieldChar, FirstOk, Holds, PhaseOf;
    var u' := u[f := Started(p)];
    forall g, h | g in u' && h in u' && PhaseOf(g) < PhaseOf(h) ensures End(u'[g]) <= u'[h].off {
      assert g in u && FieldOk(buf, p, u, phase, g);
      assert h != f ==> End(u[g]) <= u[h].off;
    }
  }

  lemma RecordMore(buf: ByteString, p: nat, u: Fields, phase: nat, f: Field)
    requires FieldsOk(buf, p, u, phase) && phase == PhaseOf(f) && p < |buf| < TWO_16
    requires f in u && End(u[f]) == p && FieldChar(f, buf[p])
    ensures FieldsOk(buf, p + 1, u[f := Longer(u[f])], phase)
  {
    hide FieldChar, FirstOk, InOrder, PhaseOf;
    var u' := u[f := Longer(u[f])];
    assert FieldOk(buf, p, u, phase, f) && Hosted(u') == Hosted(u);
    forall g | g in u' ensures FieldOk(buf, p + 1, u', phase, g) {
      assert g in u && FieldOk(buf, p, u, phase, g);
    }
    MoreInOrder(buf, p, u, phase, f);
  }

  lemma MoreInOrder(buf: ByteString, p: nat, u: Fields, phase: nat, f: Field)
    requires FieldsOk(buf, p, u, phase) && f in u && phase == PhaseOf(f)
    ensures InOrder(u[f := Longer(u[f])])
  {
    hide FieldChar, FirstOk, Holds, PhaseOf;
    var u' := u[f := Longer(u[f])];
    forall g, h | g in u' && h in u' && PhaseOf(g) < PhaseOf(h) ensures End(u'[g]) <= u'[h].off {
      assert FieldOk(buf, p, u, phase, h);
      assert End(u[g]) <= u[h].off;
    }
  }

  lemma Later(buf: ByteString, p: nat, u: Fields, phase: nat, phase': nat)
    requires FieldsOk(buf, p, u, phase) && phase <= phase' && p < |buf|
    ensures FieldsOk(buf, p + 1, u, phase')
  {
  }

  lemma SamePhase(s: State, f: Field)
    requires Phase(s) == PhaseOf(f) && Phase(s) <= 10
    ensures FieldOf(s) == Some(f)
  {
  }

  lemma ScanByteOk(buf: ByteString, p: nat, x: Scan)
    requires ScanOk(buf, p, x) && p < |buf| < TWO_16 && !ScanByte(x, p, buf[p]).s.Dead?
    ensures ScanOk(buf, p + 1, ScanByte(x, p, buf[p]))
  {
    hide ParseUrlChar, Phase, PhaseOf, FieldsOk, FieldChar, FirstOk, Hosted;
    PhaseGrows(x.s, buf[p]);
    FieldPhases();
    var x' := ScanByte(x, p, buf[p]);
    var f := FieldOf(x'.s);
    if f.None? {
      Later(buf, p, x.u, Phase(x.s), Phase(x'.s));
      DelimiterPhase(x'.s);
    } else if x.last == f {
      PhaseBound(buf, p, x.u, Phase(x.s), f.value);
      RecordMore(buf, p, x.u, Phase(x.s), f.value);
    } else {
      AllBefore(buf, p, x, f.value, x'.s);
      FirstFits(buf, p, x, f.value);
      RecordNew(buf, p, x.u, Phase(x.s), f.value);
    }
  }

  // A field that the scan enters comes behind all it has recorded.
  lemma AllBefore(buf: ByteString, p: nat, x: Scan, f: Field, s': State)
    requires ScanOk(buf, p, x) && x.last != Some(f) && FieldOf(s') == Some(f)
    requires Phase(x.s) <= Phase(s') == PhaseOf(f) <= 10
    ensures forall g <- x.u :: PhaseOf(g) < PhaseOf(f)
  {
    hide Phase, PhaseOf, FieldsOk, FieldOf;
    forall g | g in x.u ensures PhaseOf(g) < PhaseOf(f) {
      PhaseBound(buf, p, x.u, Phase(x.s), g);
      if PhaseOf(g) == PhaseOf(f) {
        SamePhase(x.s, g);
        SamePhase(s', g);
      }
    }
  }

  lemma FirstFits(buf: ByteString, p: nat, x: Scan, f: Field)
    requires ScanOk(buf, p, x) && p < |buf| && x.last != Some(f)
    requires FieldOf(ParseUrlChar(x.s, buf[p])) == Some(f)
    ensures FirstOk(f, Hosted(x.u), buf[p])
  {
    hide ParseUrlChar, FieldsOk, FieldChar;
    PhaseGrows(x.s, buf[p]);
  }

  lemma PhaseBound(buf: ByteString, p: nat, u: Fields, phase: nat, g: Field)
    requires FieldsOk(buf, p, u, phase) && g in u
    ensures PhaseOf(g) <= phase
  {
  }

  lemma FieldPhases()
    ensures PhaseOf(SCHEMA) == 1 && PhaseOf(HOST) == 5 && PhaseOf(PATH) == 6 && PhaseOf(QUERY) == 8
    ensures PhaseOf(FRAGMENT) == 10
  {
  }

  lemma DelimiterPhase(s: State)
    requires FieldOf(s).None? && Phase(s) <= 10
    ensures forall f :: PhaseOf(f) != Phase(s)
  {
  }

  // ---- What the scan of the authority keeps ---------------------------------------------------

  ghost predicate HostFound(x: Authority, a: nat, p: nat) {
    a <= x.host.off && Inside(x.host, p) && (x.userinfo.Some? ==> End(x.userinfo.value) <= x.host.off)
  }

  ghost predicate PortOk(buf: ByteString, x: Authority, p: nat) {
    x.port.Some? ==> Inside(x.port.value, p) && Holds(buf, PORT, x.port.value) && End(x.host) <= x.port.value.off
  }

  ghost predicate UserinfoOk(buf: ByteString, x: Authority, a: nat, p: nat) {
    x.userinfo.Some? ==>
      a <= x.userinfo.value.off && Inside(x.userinfo.value, p) && Holds(buf, USERINFO, x.userinfo.value)
  }

  // A host, even an address, has only bytes that user information can have too.
  ghost predicate HostBytes(buf: ByteString, x: Extent) {
    End(x) <= |buf| && forall i :: x.off <= i < End(x) ==> IsUserInfoChar(buf[i])
  }

  predicate Before(s: HostState) { s.UserinfoStart? || s.Userinfo? || s.HostStart? || s.V6Start? }
  predicate InHost(s: HostState) { s.Host? || s.V6? || s.ZoneStart? || s.Zone? }

  ghost predicate HostOk(buf: ByteString, a: nat, p: nat, x: Authority) {
    && a <= p <= |buf| && UserinfoOk(buf, x, a, p) && PortOk(buf, x, p) && HostBytes(buf, x.host) && !x.s.HostDead?
    && (Before(x.s) ==> x.host == Extent(a, 0))
    && (!Before(x.s) ==> HostFound(x, a, p))
    && (InHost(x.s) ==> End(x.host) == p)
    && (x.s.Port? <==> x.port.Some?) && (x.s.Port? ==> End(x.port.value) == p)
    && (x.s.UserinfoStart? ==> x.userinfo.None?)
    && (x.s.Userinfo? ==> x.userinfo.Some? && End(x.userinfo.value) == p)
  }

  lemma HoldsMore(buf: ByteString, f: Field, x: Extent, p: nat)
    requires p < |buf| < TWO_16 && FieldChar(f, buf[p])
    ensures Holds(buf, f, Started(p)) && Inside(Started(p), p + 1) && End(Started(p)) == p + 1 && Started(p).off == p
    ensures Holds(buf, f, x) && End(x) == p && x.len > 0 ==>
      Holds(buf, f, Longer(x)) && Inside(Longer(x), p + 1) && End(Longer(x)) == p + 1 && Longer(x).off == x.off
  {
    hide FieldChar;
  }

  lemma HostByteOk(buf: ByteString, a: nat, p: nat, x: Authority)
    requires HostOk(buf, a, p, x) && p < |buf| < TWO_16 && !HostByte(x, p, buf[p]).s.HostDead?
    ensures HostOk(buf, a, p + 1, HostByte(x, p, buf[p]))
  {
    hide HostByte, UserinfoOk, PortOk, HostBytes, HostFound;
    HostPartOk(buf, a, p, x);
    PortPartOk(buf, a, p, x);
    UserPartOk(buf, a, p, x);
    HostBytesOk(buf, a, p, x);
  }

  // The host stays, or it takes one byte more, or it begins.
  lemma HostGrows(x: Authority, p: nat, ch: Byte)
    requires (Before(x.s) ==> x.host.len == 0) && (InHost(x.s) ==> End(x.host) == p) && p + 1 < TWO_16
    requires !HostByte(x, p, ch).s.HostDead?
    ensures var y := HostByte(x, p, ch);
      if InHost(y.s) then if InHost(x.s) then y.host == Extent(x.host.off, x.host.len + 1) else y.host == Extent(p, 1)
      else y.host == x.host
    ensures var y := HostByte(x, p, ch);
      && (Before(y.s) ==> Before(x.s)) && (InHost(y.s) ==> InHost(x.s) || Before(x.s))
      && (Before(y.s) || InHost(y.s) || !Before(x.s)) && (y.userinfo == x.userinfo || (Before(y.s) && y.s.Userinfo?))
  {
    hide V6Char, ZoneChar, IsUserInfoChar, IsHostChar, IsNum, Longer, Started;
    Unwrapped(p);
    Unwrapped(x.host.len + 1);
    LongerIs(x.host);
  }

  lemma Unwrapped(n: nat)
    ensures n < TWO_16 ==> n % TWO_16 == n
  {
  }

  lemma LongerIs(x: Extent)
    ensures x.len + 1 < TWO_16 ==> Longer(x) == Extent(x.off, x.len + 1)
  {
  }

  lemma HostPartOk(buf: ByteString, a: nat, p: nat, x: Authority)
    requires HostOk(buf, a, p, x) && p < |buf| < TWO_16 && !HostByte(x, p, buf[p]).s.HostDead?
    ensures var y := HostByte(x, p, buf[p]);
      && (Before(y.s) ==> y.host == Extent(a, 0)) && (!Before(y.s) ==> HostFound(y, a, p + 1))
      && (InHost(y.s) ==> End(y.host) == p + 1)
  {
    hide HostByte, PortOk, HostBytes, Holds;
    HostGrows(x, p, buf[p]);
  }

  lemma PortPartOk(buf: ByteString, a: nat, p: nat, x: Authority)
    requires HostOk(buf, a, p, x) && p < |buf| < TWO_16 && !HostByte(x, p, buf[p]).s.HostDead?
    ensures var y := HostByte(x, p, buf[p]);
      PortOk(buf, y, p + 1) && (y.s.Port? <==> y.port.Some?) && (y.s.Port? ==> End(y.port.value) == p + 1)
  {
    hide HostBytes, Holds, UserinfoOk, Started, Longer, V6Char, ZoneChar, IsUserInfoChar, IsHostChar, IsNum, FieldChar;
    PortChars(x.s, buf[p]);
    PortGrows(x, p, buf[p]);
    HostGrows(x, p, buf[p]);
    if ParseHostChar(x.s, buf[p]).Port? {
      HoldsMore(buf, PORT, if x.port.Some? then x.port.value else Extent(0, 0), p);
    }
  }

  lemma PortGrows(x: Authority, p: nat, ch: Byte)
    requires (x.s.Port? <==> x.port.Some?) && !HostByte(x, p, ch).s.HostDead?
    ensures var y := HostByte(x, p, ch);
      && (y.s.Port? ==> y.host == x.host && !Before(x.s))
      && y.port == if !y.s.Port? then None else Some(if x.s.Port? then Longer(x.port.value) else Started(p))
  {
    hide Longer, Started, V6Char, ZoneChar, IsUserInfoChar, IsHostChar, IsNum;
  }

  lemma UserPartOk(buf: ByteString, a: nat, p: nat, x: Authority)
    requires HostOk(buf, a, p, x) && p < |buf| < TWO_16 && !HostByte(x, p, buf[p]).s.HostDead?
    ensures var y := HostByte(x, p, buf[p]);
      && UserinfoOk(buf, y, a, p + 1) && !y.s.UserinfoStart?
      && (y.s.Userinfo? ==> y.userinfo.Some? && End(y.userinfo.value) == p + 1)
  {
    hide HostBytes, Holds, PortOk, HostFound, Started, Longer, V6Char, ZoneChar, IsUserInfoChar, IsHostChar, IsNum,
      FieldChar;
    PortChars(x.s, buf[p]);
    if ParseHostChar(x.s, buf[p]).Userinfo? {
      HoldsMore(buf, USERINFO, if x.userinfo.Some? then x.userinfo.value else Extent(0, 0), p);
    }
  }

  lemma HostBytesOk(buf: ByteString, a: nat, p: nat, x: Authority)
    requires HostOk(buf, a, p, x) && p < |buf| < TWO_16 && !HostByte(x, p, buf[p]).s.HostDead?
    ensures HostBytes(buf, HostByte(x, p, buf[p]).host)
  {
    hide HostByte, ParseHostChar, PortOk, UserinfoOk, IsUserInfoChar;
    HostGrows(x, p, buf[p]);
    HostByteState(x, p, buf[p]);
    HostChars(x.s, buf[p]);
  }

  lemma HostByteState(x: Authority, p: nat, ch: Byte)
    ensures HostByte(x, p, ch).s == ParseHostChar(x.s, ch)
  {
    hide ParseHostChar;
  }

  lemma HostChars(s: HostState, ch: Byte)
    ensures InHost(ParseHostChar(s, ch)) ==> IsUserInfoChar(ch)
  {
  }

  lemma PortChars(s: HostState, ch: Byte)
    ensures ParseHostChar(s, ch).Port? ==> FieldChar(PORT, ch)
    ensures ParseHostChar(s, ch).Userinfo? ==> FieldChar(USERINFO, ch)
  {
    hide IsUserInfoChar, IsHostChar, IsNum, V6Char, ZoneChar;
  }

  lemma {:induction false} ScanKeeps(buf: ByteString, p: nat, x: Scan)
    requires ScanOk(buf, p, x) && |buf| < TWO_16
    ensures ScanFrom(buf, p, x).Some? ==> ScanOk(buf, |buf|, ScanFrom(buf, p, x).value)
    decreases |buf| - p
  {
    hide ScanByte, ScanOk;
    ScanInRange(buf, p, x);
    if p < |buf| && !ScanByte(x, p, buf[p]).s.Dead? {
      ScanByteOk(buf, p, x);
      ScanKeeps(buf, p + 1, ScanByte(x, p, buf[p]));
    }
  }

  lemma ScanInRange(buf: ByteString, p: nat, x: Scan)
    requires ScanOk(buf, p, x)
    ensures p <= |buf|
  {
  }

  lemma {:induction false} HostKeeps(buf: ByteString, a: nat, p: nat, end: nat, x: Authority)
    requires HostOk(buf, a, p, x) && p <= end <= |buf| < TWO_16
    ensures var r := HostFrom(buf, p, end, x);
      r.Some? ==> HostOk(buf, a, end, r.value) && (r.value.s.Host? || r.value.s.V6End? || r.value.s.Port?)
    decreases end - p
  {
    hide HostByte, HostOk;
    if p < end && !HostByte(x, p, buf[p]).s.HostDead? {
      HostByteOk(buf, a, p, x);
      HostKeeps(buf, a, p + 1, end, HostByte(x, p, buf[p]));
    }
  }

  // ---- What an accepted URL is split into -------------------------------------------------------

  // The order of the fields in a URL.
  function Order(f: Field): nat {
    match f
    case SCHEMA => 0 case USERINFO => 1 case HOST => 2 case PORT => 3 case PATH => 4 case QUERY => 5 case FRAGMENT => 6
  }

  // The authority, before it is split further.
  function AuthorityOf(buf: ByteString, connect: bool): Option<Extent> {
    match ScanFrom(buf, 0, ScanStart(connect))
    case None => None
    case Some(x) => if HOST in x.u then Some(x.u[HOST]) else None
  }

  lemma ScanStartOk(buf: ByteString, connect: bool)
    ensures ScanOk(buf, 0, ScanStart(connect))
  {
  }

  lemma HostBeginOk(buf: ByteString, x: Extent, at: bool)
    requires x.off <= |buf|
    ensures HostOk(buf, x.off, x.off, HostBegin(x, at))
  {
  }

  // The reported fields are nonempty, within the buffer, disjoint and in the order of the
  // URL, and hold only bytes proper to them; user information, host and port lie within
  // the authority.
  ghost predicate SplitOk(buf: ByteString, u: Fields, authority: Option<Extent>) {
    && (forall f <- u :: Inside(u[f], |buf|))
    && (forall f <- u :: f != HOST ==> Holds(buf, f, u[f]))
    && (forall f, g :: f in u && g in u && Order(f) < Order(g) ==> End(u[f]) <= u[g].off)
    && (HOST in u <==> authority.Some?) && (SCHEMA in u ==> HOST in u) && (HOST in u ==> HostBytes(buf, u[HOST]))
    && (forall f <- u :: f.PATH? || f.FRAGMENT? ==> FirstOk(f, HOST in u, buf[u[f].off]))
    && (forall f <- u :: InAuthority(f) ==>
         authority.Some? && authority.value.off <= u[f].off && End(u[f]) <= End(authority.value))
  }

  // For every accepted URL below 2^16 bytes.
  lemma UrlFields(buf: ByteString, connect: bool)
    requires |buf| < TWO_16 && SplitFields(buf, connect).Some?
    ensures SplitOk(buf, SplitFields(buf, connect).value, AuthorityOf(buf, connect))
  {
    hide ScanFrom, HostFrom, ScanOk, SplitOk, WithAuthority, HostBegin;
    ScanStartOk(buf, connect);
    ScanKeeps(buf, 0, ScanStart(connect));
    var x := ScanFrom(buf, 0, ScanStart(connect)).value;
    if HOST in x.u {
      HostedSplit(buf, x);
    } else {
      PlainSplit(buf, x);
    }
  }

  lemma PlainSplit(buf: ByteString, x: Scan)
    requires ScanOk(buf, |buf|, x) && HOST !in x.u && SCHEMA !in x.u
    ensures SplitOk(buf, x.u, None)
  {
    hide ScanOk, Holds, Order;
    ScanResult(buf, x);
    PlainOrder(x.u);
  }

  lemma HostedSplit(buf: ByteString, x: Scan)
    requires ScanOk(buf, |buf|, x) && HOST in x.u && |buf| < TWO_16
    requires End(x.u[HOST]) <= |buf|
    ensures var auth := x.u[HOST];
      var y := HostFrom(buf, auth.off, End(auth), HostBegin(auth, x.at));
      y.Some? ==> SplitOk(buf, WithAuthority(x.u, y.value), Some(auth))
  {
    hide ScanOk, Holds, Order, HostFrom, HostBegin, HostOk, HostFound, PortOk, UserinfoOk, WithAuthority, InOrder,
      HostBytes;
    ScanResult(buf, x);
    var auth := x.u[HOST];
    HostBeginOk(buf, auth, x.at);
    HostKeeps(buf, auth.off, auth.off, End(auth), HostBegin(auth, x.at));
    var y := HostFrom(buf, auth.off, End(auth), HostBegin(auth, x.at));
    if y.Some? {
      HostResult(buf, auth.off, End(auth), y.value);
      Combined(buf, x.u, y.value);
      CombinedOrder(buf, x.u, y.value);
      InsideAuthority(x.u, y.value);
      OutsideAuthority(x.u, y.value, PATH);
      OutsideAuthority(x.u, y.value, FRAGMENT);
    }
  }

  lemma PlainOrder(u: Fields)
    requires InOrder(u) && HOST !in u && forall f <- u :: PhaseOf(f) <= 10
    ensures (forall f <- u :: !InAuthority(f))
    ensures forall f, g :: f in u && g in u && Order(f) < Order(g) ==> End(u[f]) <= u[g].off
  {
  }

  lemma ScanResult(buf: ByteString, x: Scan)
    requires ScanOk(buf, |buf|, x)
    ensures forall f <- x.u :: Inside(x.u[f], |buf|) && Holds(buf, f, x.u[f]) && PhaseOf(f) <= 10
                               && FirstOk(f, Hosted(x.u), buf[x.u[f].off])
    ensures InOrder(x.u)
  {
    hide Holds, FirstOk;
    forall f | f in x.u
      ensures Inside(x.u[f], |buf|) && Holds(buf, f, x.u[f]) && PhaseOf(f) <= 10
              && FirstOk(f, Hosted(x.u), buf[x.u[f].off])
    {
      assert FieldOk(buf, |buf|, x.u, Phase(x.s), f);
    }
  }

  lemma HostResult(buf: ByteString, a: nat, end: nat, y: Authority)
    requires HostOk(buf, a, end, y) && (y.s.Host? || y.s.V6End? || y.s.Port?)
    ensures HostFound(y, a, end) && PortOk(buf, y, end) && UserinfoOk(buf, y, a, end) && HostBytes(buf, y.host)
  {
  }

  predicate InAuthority(f: Field) { f.HOST? || f.PORT? || f.USERINFO? }

  lemma Combined(buf: ByteString, u: Fields, y: Authority)
    requires HOST in u && PORT !in u && USERINFO !in u
    requires forall f <- u :: Inside(u[f], |buf|)
    requires var (a, end) := (u[HOST].off, End(u[HOST]));
      HostFound(y, a, end) && PortOk(buf, y, end) && UserinfoOk(buf, y, a, end)
    ensures var v := WithAuthority(u, y);
      && (forall f <- v :: Inside(v[f], |buf|))
      && (forall f <- v :: InAuthority(f) ==> u[HOST].off <= v[f].off && End(v[f]) <= End(u[HOST]))
      && (forall f <- v :: f != HOST ==> if f in u then v[f] == u[f] else Holds(buf, f, v[f]))
  {
    hide Holds;
  }

  lemma CombinedOrder(buf: ByteString, u: Fields, y: Authority)
    requires HOST in u && PORT !in u && USERINFO !in u && InOrder(u) && forall f <- u :: Inside(u[f], |buf|)
    requires var (a, end) := (u[HOST].off, End(u[HOST]));
      HostFound(y, a, end) && PortOk(buf, y, end) && UserinfoOk(buf, y, a, end)
    ensures var v := WithAuthority(u, y);
      forall f, g :: f in v && g in v && Order(f) < Order(g) ==> End(v[f]) <= v[g].off
  {
    hide Holds, WithAuthority, InOrder;
    Combined(buf, u, y);
    var v := WithAuthority(u, y);
    forall f, g | f in v && g in v && Order(f) < Order(g) ensures End(v[f]) <= v[g].off {
      if InAuthority(f) && InAuthority(g) {
        InsideAuthority(u, y);
      } else {
        AroundAuthority(u, f, g);
        OutsideAuthority(u, y, f);
        OutsideAuthority(u, y, g);
      }
    }
  }

  lemma InsideAuthority(u: Fields, y: Authority)
    requires PORT !in u && USERINFO !in u
    ensures var v := WithAuthority(u, y);
      && HOST in v && v[HOST] == y.host && (PORT in v <==> y.port.Some?) && (USERINFO in v <==> y.userinfo.Some?)
      && (PORT in v ==> v[PORT] == y.port.value) && (USERINFO in v ==> v[USERINFO] == y.userinfo.value)
  {
  }

  lemma OutsideAuthority(u: Fields, y: Authority, f: Field)
    ensures !InAuthority(f) && f in WithAuthority(u, y) ==> f in u && WithAuthority(u, y)[f] == u[f]
  {
  }

  // The rest of a URL lies before or behind the authority.
  lemma AroundAuthority(u: Fields, f: Field, g: Field)
    requires InOrder(u) && HOST in u && Order(f) < Order(g) && !(InAuthority(f) && InAuthority(g))
    ensures f in u && g in u && !InAuthority(f) && !InAuthority(g) ==> End(u[f]) <= u[g].off
    ensures f in u && !InAuthority(f) && InAuthority(g) ==> End(u[f]) <= u[HOST].off
    ensures g in u && InAuthority(f) && !InAuthority(g) ==> End(u[HOST]) <= u[g].off
  {
  }

  // ---- The functions as loops -------------------------------------------------------------------

  // http_parse_host.
  method ParseHost(buf: ByteString, auth: Extent, at: bool) returns (r: Option<Authority>)
    requires End(auth) <= |buf|
    ensures r == HostFrom(buf, auth.off, End(auth), HostBegin(auth, at))
  {
    hide HostByte, ParseHostChar;
    var x := HostBegin(auth, at);
    var p := auth.off;
    while p < End(auth)
      invariant auth.off <= p <= End(auth)
      invariant HostFrom(buf, p, End(auth), x) == HostFrom(buf, auth.off, End(auth), HostBegin(auth, at))
    {
      x := HostByte(x, p, buf[p]);
      if x.s.HostDead? {
        return None;
      }
      p := p + 1;
    }
    r := if x.s.Host? || x.s.V6End? || x.s.Port? then Some(x) else None;
  }

  // The conversion of the port; none if it is above 2^16 - 1.
  method PortNumber(digits: ByteString) returns (r: Option<nat>)
    requires forall d <- digits :: IsNum(d)
    ensures var v := DecNumeral(0, digits); r == if v < TWO_16 then Some(v) else None
  {
    var v: nat := 0;
    var i := 0;
    assert digits[0..] == digits;
    while i < |digits|
      invariant i <= |digits| && v < TWO_16 && DecNumeral(v, digits[i..]) == DecNumeral(0, digits)
    {
      assert digits[i..][1..] == digits[i + 1..];
      v := v * 10 + Digit(digits[i]);
      DecNumeralGrows(v, digits[i + 1..]);
      if v >= TWO_16 {
        return None;
      }
      i := i + 1;
    }
    r := Some(v);
  }

  ghost function PortValue(buf: ByteString, u: Fields): nat
    requires PORT in u ==> Holds(buf, PORT, u[PORT])
  {
    if PORT in u then DecNumeral(0, buf[u[PORT].off..End(u[PORT])]) else 0
  }

  // http_parser_parse_url: a URL is refused, or its fields are those of SplitFields and the
  // port is the decimal value of the port field, at most 2^16 - 1.
  method ParseUrl(buf: ByteString, connect: bool) returns (r: Option<Url>)
    requires |buf| < TWO_16
    ensures var split := SplitFields(buf, connect);
      && (split.None? ==> r.None?)
      && (split.Some? ==> SplitOk(buf, split.value, AuthorityOf(buf, connect)))
      && (split.Some? ==> var port := PortValue(buf, split.value);
                          r == if port < TWO_16 then Some(Url(split.value, port)) else None)
  {
    hide ScanByte, HostFrom, SplitOk, WithAuthority, HostBegin, DecNumeral;
    if buf == [] {
      return None;
    }
    if SplitFields(buf, connect).Some? {
      UrlFields(buf, connect);
      PortHolds(buf, SplitFields(buf, connect).value, AuthorityOf(buf, connect));
    }
    var x := ScanStart(connect);
    var p := 0;
    while p < |buf|
      invariant p <= |buf| && ScanFrom(buf, p, x) == ScanFrom(buf, 0, ScanStart(connect))
    {
      x := ScanByte(x, p, buf[p]);
      if x.s.Dead? {
        return None;
      }
      p := p + 1;
    }
    if SCHEMA in x.u && HOST !in x.u {
      return None;
    }
    var u := x.u;
    if HOST in u {
      HostInRange(buf, connect);
      var y := ParseHost(buf, u[HOST], x.at);
      if y.None? {
        return None;
      }
      u := WithAuthority(u, y.value);
    }
    if connect && u.Keys != {HOST, PORT} {
      return None;
    }
    if PORT !in u {
      return Some(Url(u, 0));
    }
    var v := PortNumber(buf[u[PORT].off..End(u[PORT])]);
    r := if v.Some? then Some(Url(u, v.value)) else None;
  }

  lemma PortHolds(buf: ByteString, u: Fields, authority: Option<Extent>)
    requires SplitOk(buf, u, authority)
    ensures PORT in u ==> Holds(buf, PORT, u[PORT]) && forall d <- buf[u[PORT].off..End(u[PORT])] :: IsNum(d)
  {
  }

  lemma HostInRange(buf: ByteString, connect: bool)
    requires |buf| < TWO_16 && ScanFrom(buf, 0, ScanStart(connect)).Some?
    ensures var u := ScanFrom(buf, 0, ScanStart(connect)).value.u; HOST in u ==> End(u[HOST]) <= |buf|
  {
    hide ScanFrom, ScanOk;
    ScanStartOk(buf, connect);
    ScanKeeps(buf, 0, ScanStart(connect));
    ScanResult(buf, ScanFrom(buf, 0, ScanStart(connect)).value);
  }
}
