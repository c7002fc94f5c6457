// Uri of uri.cc: a URL taken apart, and printed in its normal form.
module Uris {
  import opened Bytes
  import opened HttpTypes
  import opened HttpFraming
  import opened UrlSplit

  // The fields of a Uri.
  datatype Parts = Parts(scheme: ByteString, userinfo: ByteString, host: ByteString, path: ByteString,
                         query: ByteString, fragment: ByteString, port: nat)

  const HTTP: ByteString := ['h', 't', 't', 'p']
  const HTTPS: ByteString := ['h', 't', 't', 'p', 's']
  const WS: ByteString := ['w', 's']
  const WSS: ByteString := ['w', 's', 's']

  function Piece(url: ByteString, u: UrlSplit.Fields, f: Field): ByteString {
    if f in u && End(u[f]) <= |url| then url[u[f].off..End(u[f])] else []
  }

  // Create knows the default ports of http, ws and https only.
  function PartsOf(url: ByteString, u: UrlSplit.Fields, port: nat): Parts {
    var scheme := Piece(url, u, SCHEMA);
    Parts(scheme, Piece(url, u, USERINFO), Piece(url, u, HOST), Piece(url, u, PATH), Piece(url, u, QUERY),
          Piece(url, u, FRAGMENT),
          if PORT in u then port else if scheme == HTTP || scheme == WS then 80 else if scheme == HTTPS then 443 else 0)
  }

  // What Create makes of a URL.
  ghost function Created(url: ByteString): Option<Parts>
    requires |url| < TWO_16
  {
    var split := SplitFields(url, false);
    if split.None? then None
    else
      UrlFields(url, false);
      PortHolds(url, split.value, AuthorityOf(url, false));
      var port := PortValue(url, split.value);
      if port < TWO_16 then Some(PartsOf(url, split.value, port)) else None
  }

  function GetPort(p: Parts): nat {
    if p.port != 0 then p.port
    else if p.scheme == HTTP || p.scheme == WS then 80
    else if p.scheme == HTTPS || p.scheme == WSS then 443
    else p.port
  }

  function GetPath(p: Parts): ByteString {
    if p.path == [] then ['/'] else p.path
  }

  predicate IsDefaultPort(p: Parts) {
    if p.scheme == HTTP || p.scheme == WS then p.port == 80
    else if p.scheme == HTTPS then p.port == 443
    else false
  }

  function DigitChar(d: nat): Byte
    requires d < 10
  {
    (d + '0' as int) as char
  }

  // std::to_string.
  function Decimal(n: nat): (s: ByteString)
    ensures s != []
  {
    if n < 10 then [DigitChar(n)] else Decimal(n / 10) + [DigitChar(n % 10)]
  }

  const COLON_SLASHES: ByteString := [':', '/', '/']

  function PrintedUser(p: Parts): ByteString { if p.userinfo == [] then [] else p.userinfo + ['@'] }
  function PrintedPort(p: Parts): ByteString { if IsDefaultPort(p) then [] else [':'] + Decimal(p.port) }
  function PrintedQuery(p: Parts): ByteString { if p.query == [] then [] else ['?'] + p.query }
  function PrintedFragment(p: Parts): ByteString { if p.fragment == [] then [] else ['#'] + p.fragment }

  function ToString(p: Parts): ByteString {
    p.scheme + (COLON_SLASHES + (PrintedUser(p) + ((p.host + PrintedPort(p)) + (GetPath(p)
      + (PrintedQuery(p) + PrintedFragment(p))))))
  }

  class Uri {
    var scheme: ByteString
    var userinfo: ByteString
    var host: ByteString
    var path: ByteString
    var query: ByteString
    var fragment: ByteString
    var port: nat

    function View(): Parts
      reads this
    {
      Parts(scheme, userinfo, host, path, query, fragment, port)
    }

    constructor ()
      ensures View() == Parts([], [], [], [], [], [], 0)
    {
      scheme, userinfo, host, path, query, fragment, port := [], [], [], [], [], [], 0;
    }

    static method Create(url: ByteString) returns (uri: Uri?)
      requires |url| < TWO_16
      ensures match Created(url)
              case None => uri == null
              case Some(p) => uri != null && fresh(uri) && uri.View() == p
    {
      hide SplitFields, SplitOk, PortValue, AuthorityOf;
      var u := ParseUrl(url, false);
      if u.None? {
        return null;
      }
      uri := new Uri();
      uri.SetAuthority(url, u.value);
      uri.SetRest(url, u.value.fields);
    }

    // Scheme, user information, host and port.
    method SetAuthority(url: ByteString, u: Url)
      requires View() == Parts([], [], [], [], [], [], 0)
      modifies this
      ensures var p := PartsOf(url, u.fields, u.port);
        View() == Parts(p.scheme, p.userinfo, p.host, [], [], [], p.port)
    {
      if SCHEMA in u.fields {
        scheme := Piece(url, u.fields, SCHEMA);
      }
      if USERINFO in u.fields {
        userinfo := Piece(url, u.fields, USERINFO);
      }
      if HOST in u.fields {
        host := Piece(url, u.fields, HOST);
      }
      if PORT in u.fields {
        port := u.port;
      } else if scheme == HTTP || scheme == WS {
        port := 80;
      } else if scheme == HTTPS {
        port := 443;
      }
    }

    // Path, query and fragment.
    method SetRest(url: ByteString, fields: UrlSplit.Fields)
      requires path == [] && query == [] && fragment == []
      modifies this`path, this`query, this`fragment
      ensures path == Piece(url, fields, PATH) && query == Piece(url, fields, QUERY)
      ensures fragment == Piece(url, fields, FRAGMENT)
    {
      if PATH in fields {
        path := Piece(url, fields, PATH);
      }
      if QUERY in fields {
        query := Piece(url, fields, QUERY);
      }
      if FRAGMENT in fields {
        fragment := Piece(url, fields, FRAGMENT);
      }
    }
  }

  // ---- Decimal numerals -----------------------------------------------------------------------

  lemma {:induction false} NumeralAppend(v: nat, s: ByteString, d: Byte)
    requires (forall c <- s :: IsNum(c)) && IsNum(d)
    ensures forall c <- s + [d] :: IsNum(c)
    ensures DecNumeral(v, s + [d]) == DecNumeral(v, s) * 10 + Digit(d)
    decreases |s|
  {
    if s == [] {
      assert s + [d] == [d] && [d][1..] == [];
      assert DecNumeral(v, [d]) == DecNumeral(v * 10 + Digit(d), [d][1..]);
    } else {
      NumeralAppend(v * 10 + Digit(s[0]), s[1..], d);
      assert (s + [d])[1..] == s[1..] + [d];
    }
  }

  lemma {:induction false} DecimalBack(n: nat)
    ensures (forall c <- Decimal(n) :: IsNum(c)) && DecNumeral(0, Decimal(n)) == n
  {
    if n < 10 {
      assert [DigitChar(n)][1..] == [];
      assert DecNumeral(0, [DigitChar(n)]) == DecNumeral(n, [DigitChar(n)][1..]);
    } else {
      DecimalBack(n / 10);
      NumeralAppend(0, Decimal(n / 10), DigitChar(n % 10));
    }
  }

  // ---- Ports ----------------------------------------------------------------------------------

  // The well-known port of a scheme.
  function WellKnown(scheme: ByteString): nat {
    if scheme in {HTTP, WS} then 80 else if scheme in {HTTPS, WSS} then 443 else 0
  }

  // getPort of what Create made: the number in the URL, unless there is none or it is 0;
  // then the well-known port of the scheme, also for wss, which Create does not know.
  lemma CreatedPort(url: ByteString)
    requires |url| < TWO_16 && Created(url).Some?
    ensures var (p, u) := (Created(url).value, SplitFields(url, false).value);
      SplitOk(url, u, AuthorityOf(url, false))
      && GetPort(p) == if PORT in u && PortValue(url, u) > 0 then PortValue(url, u) else WellKnown(p.scheme)
  {
    hide SplitFields, SplitOk, PortValue, AuthorityOf, Piece;
    UrlFields(url, false);
    PortHolds(url, SplitFields(url, false).value, AuthorityOf(url, false));
    SchemesDiffer();
  }

  lemma SchemesDiffer()
    ensures HTTP != HTTPS && HTTP != WSS && WS != HTTPS && WS != WSS
  {
  }

  // The port is left out of the printed form for http and ws on 80 and https on 443 alone.
  lemma PortPrinted(p: Parts)
    ensures PrintedPort(p) == []
       <==> (p.scheme == "http" && p.port == 80) || (p.scheme == "ws" && p.port == 80)
            || (p.scheme == "https" && p.port == 443)
  {
    hide Decimal;
    assert HTTP == "http" && HTTPS == "https" && WS == "ws";
    assert |HTTP| == 4 && |HTTPS| == 5 && |WS| == 2;
  }

  // ---- What the parts of an accepted URL look like -----------------------------------------------

  // A host name; an address that was bracketed has a ':' or a '%' unless it looks like a name.
  predicate HostName(s: ByteString) { forall c <- s :: IsHostChar(c) }

  // The parts of a URL with a scheme.
  ghost predicate PartsOk(p: Parts) {
    && p.scheme != [] && (forall c <- p.scheme :: FieldChar(SCHEMA, c))
    && (forall c <- p.userinfo :: IsUserInfoChar(c))
    && p.host != [] && (forall c <- p.host :: IsUserInfoChar(c))
    && (p.path != [] ==> p.path[0] == '/') && (forall c <- p.path :: FieldChar(PATH, c))
    && (forall c <- p.query :: FieldChar(QUERY, c))
    && (p.fragment != [] ==> p.fragment[0] != '#') && (forall c <- p.fragment :: FieldChar(FRAGMENT, c))
    && p.port < TWO_16
  }

  lemma PieceChars(url: ByteString, u: UrlSplit.Fields, authority: Option<Extent>, f: Field)
    requires SplitOk(url, u, authority)
    ensures f in u ==> Piece(url, u, f) != [] && Piece(url, u, f)[0] == url[u[f].off]
    ensures f !in u ==> Piece(url, u, f) == []
    ensures f != HOST ==> forall c <- Piece(url, u, f) :: FieldChar(f, c)
  {
    hide FieldChar, Order;
  }

  lemma Firsts(url: ByteString, u: UrlSplit.Fields, authority: Option<Extent>)
    requires SplitOk(url, u, authority) && SCHEMA in u
    ensures HOST in u && (PATH in u ==> url[u[PATH].off] == '/') && (FRAGMENT in u ==> url[u[FRAGMENT].off] != '#')
  {
    hide FieldChar, Order;
  }

  lemma HostPiece(url: ByteString, u: UrlSplit.Fields, authority: Option<Extent>)
    requires SplitOk(url, u, authority)
    ensures forall c <- Piece(url, u, HOST) :: IsUserInfoChar(c)
  {
    hide FieldChar, Order, IsUserInfoChar;
  }

  lemma CreatedOk(url: ByteString)
    requires |url| < TWO_16 && Created(url).Some?
    requires Created(url).value.scheme != []
    ensures PartsOk(Created(url).value)
  {
    hide SplitFields, FieldChar, PortValue, AuthorityOf, SplitOk, Piece, IsUserInfoChar;
    UrlFields(url, false);
    var u, auth := SplitFields(url, false).value, AuthorityOf(url, false);
    PieceChars(url, u, auth, SCHEMA);
    PieceChars(url, u, auth, USERINFO);
    PieceChars(url, u, auth, HOST);
    PieceChars(url, u, auth, PATH);
    PieceChars(url, u, auth, QUERY);
    PieceChars(url, u, auth, FRAGMENT);
    Firsts(url, u, auth);
    HostPiece(url, u, auth);
    forall c | c in Piece(url, u, USERINFO) ensures IsUserInfoChar(c) {
      UserinfoChars(c);
    }
  }

  lemma UserinfoChars(c: Byte)
    ensures FieldChar(USERINFO, c) <==> IsUserInfoChar(c)
  {
  }
}
