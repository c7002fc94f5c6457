// The query-parameter splitter PARSE_PARAM of sylar/http/http.cc, and the map it
// fills, whose keys are compared with strcasecmp.
module QueryParams {
  import opened Bytes
  import opened UrlText

  datatype Param = Param(key: ByteString, value: ByteString)

  // The first index of c, as std::string::find reports it.
  function IndexOf(s: ByteString, c: Byte): (r: Option<nat>)
    ensures r.Some? ==> r.value < |s| && s[r.value] == c
    ensures forall i :: 0 <= i < (if r.Some? then r.value else |s|) ==> s[i] != c
  {
    if s == [] then None
    else if s[0] == c then Some(0)
    else match IndexOf(s[1..], c) case None => None case Some(i) => Some(i + 1)
  }

  // The first pair of s, decoded, and what follows its '&' if there is one.
  function Cut(s: ByteString): (r: Option<(Param, Option<ByteString>)>)
    ensures r.Some? && r.value.1.Some? ==> |r.value.1.value| < |s|
  {
    match IndexOf(s, '=')
    case None => None
    case Some(eq) =>
      match IndexOf(s[eq..], '&')
      case None => Some((Param(Decoded(s[..eq], true), Decoded(s[eq + 1..], true)), None))
      case Some(d) =>
        Some((Param(Decoded(s[..eq], true), Decoded(s[eq + 1..eq + d], true)), Some(s[eq + d + 1..])))
  }

  // The decoded pairs of s, in order of appearance.
  function ParamList(s: ByteString): seq<Param>
    decreases |s|
  {
    match Cut(s)
    case None => []
    case Some((p, rest)) => [p] + if rest.None? then [] else ParamList(rest.value)
  }

  // strcasecmp sees a key up to its first NUL, ignoring ASCII case.
  function CaseKey(k: ByteString): ByteString {
    if k == [] || k[0] == '\0' then []
    else [if 'A' <= k[0] <= 'Z' then k[0] - 'A' + 'a' else k[0]] + CaseKey(k[1..])
  }

  // The map by case key; an insert under a key already present is ignored.
  type ParamMap = map<ByteString, Param>

  function Insert(m: ParamMap, p: Param): ParamMap {
    if CaseKey(p.key) in m then m else m[CaseKey(p.key) := p]
  }

  function InsertAll(m: ParamMap, ps: seq<Param>): ParamMap
    decreases ps
  {
    if ps == [] then m else InsertAll(Insert(m, ps[0]), ps[1..])
  }

  class HttpRequest {
    var query: ByteString
    var params: ParamMap
    var queryParsed: bool   // bit 0 of m_parserParamFlag

    constructor (query: ByteString)
      ensures this.query == query && params == map[] && !queryParsed
    {
      this.query, params, queryParsed := query, map[], false;
    }

    method InitQueryParam()
      modifies this
      ensures query == old(query) && queryParsed
      ensures params == if old(queryParsed) then old(params)
                        else InsertAll(old(params), ParamList(query))
    {
      hide Decoded, IndexOf, Cut, InsertAll, ParamList, Insert;
      if queryParsed {
        return;
      }
      var pos := 0;
      assert query[0..] == query;
      while true
        invariant 0 <= pos <= |query| && query == old(query)
        invariant InsertAll(params, ParamList(query[pos..])) == InsertAll(old(params), ParamList(query))
        decreases |query| - pos
      {
        var last := pos;
        InsertFirst(params, query[pos..]);
        var eq := IndexOf(query[pos..], '=');
        if eq.None? {
          NoCut(query[pos..]);
          break;
        }
        var key := pos + eq.value;
        var amp := IndexOf(query[key..], '&');
        var end := if amp.Some? then key + amp.value else |query|;
        ParamStep(query, pos);
        var name := UrlDecode(query[last..key], true);
        var value := UrlDecode(query[key + 1..end], true);
        params := Insert(params, Param(name, value));
        if amp.None? {
          InsertNothing(params);
          break;
        }
        pos := end + 1;
      }
      queryParsed := true;
    }
  }

  // A first pair goes into the map, and the others after it.
  lemma InsertFirst(m: ParamMap, s: ByteString)
    ensures Cut(s).None? ==> InsertAll(m, ParamList(s)) == m
    ensures Cut(s).Some? ==>
      var more := if Cut(s).value.1.None? then [] else ParamList(Cut(s).value.1.value);
      InsertAll(m, ParamList(s)) == InsertAll(Insert(m, Cut(s).value.0), more)
  {
    hide Cut, Insert;
    if Cut(s).Some? {
      var more: seq<Param> := if Cut(s).value.1.None? then [] else ParamList(Cut(s).value.1.value);
      assert ParamList(s)[0] == Cut(s).value.0 && ParamList(s)[1..] == more;
    }
  }

  lemma InsertNothing(m: ParamMap)
    ensures InsertAll(m, []) == m
  {
  }

  // One round of the loop, in the positions of the whole query.
  lemma ParamStep(q: ByteString, pos: nat)
    requires pos <= |q| && IndexOf(q[pos..], '=').Some?
    ensures var key := pos + IndexOf(q[pos..], '=').value;
      var amp := IndexOf(q[key..], '&');
      var end := if amp.Some? then key + amp.value else |q|;
      && key < end <= |q|
      && Cut(q[pos..]) == Some((Param(Decoded(q[pos..key], true), Decoded(q[key + 1..end], true)),
                                if amp.None? then None else Some(q[end + 1..])))
  {
    hide Decoded, IndexOf;
    var s := q[pos..];
    var eq := IndexOf(s, '=').value;
    assert s[eq..] == q[pos + eq..] && s[..eq] == q[pos..pos + eq];
    var amp := IndexOf(s[eq..], '&');
    if amp.Some? {
      var d := amp.value;
      assert s[eq + 1..eq + d] == q[pos + eq + 1..pos + eq + d];
      assert s[eq + d + 1..] == q[pos + eq + d + 1..];
    } else {
      assert s[eq + 1..] == q[pos + eq + 1..|q|];
    }
  }

  // ---- Joining encoded pairs and splitting them again ----------------------

  function JoinPair(p: Param): ByteString {
    Encoded(p.key, true) + ['='] + Encoded(p.value, true)
  }

  function Join(ps: seq<Param>): ByteString {
    if ps == [] then []
    else if |ps| == 1 then JoinPair(ps[0])
    else JoinPair(ps[0]) + ['&'] + Join(ps[1..])
  }

  lemma {:induction false} IndexOfFirst(a: ByteString, c: Byte, rest: ByteString)
    requires c !in a
    ensures IndexOf(a + [c] + rest, c) == Some(|a|)
  {
    if a != [] {
      assert (a + [c] + rest)[1..] == a[1..] + [c] + rest;
      IndexOfFirst(a[1..], c, rest);
    }
  }

  // What is before the first '=' is the first key.
  lemma FirstKey(k: ByteString, rest: ByteString)
    requires '=' !in k
    ensures var c := Cut(k + ['='] + rest); c.Some? && c.value.0.key == Decoded(k, true)
  {
    hide Decoded, IndexOf;
    IndexOfFirst(k, '=', rest);
    assert (k + ['='] + rest)[..|k|] == k;
  }

  // One raw pair on its own, and one followed by '&' and more.
  lemma CutLast(k: ByteString, v: ByteString)
    requires '=' !in k && '&' !in v
    ensures Cut(k + ['='] + v) == Some((Param(Decoded(k, true), Decoded(v, true)), None))
  {
    hide Decoded, IndexOf;
    var s := k + ['='] + v;
    IndexOfFirst(k, '=', v);
    assert s[..|k|] == k && s[|k|..] == ['='] + v && s[|k| + 1..] == v;
  }

  lemma CutMore(k: ByteString, v: ByteString, more: ByteString)
    requires '=' !in k && '&' !in v
    ensures Cut(k + ['='] + v + ['&'] + more) == Some((Param(Decoded(k, true), Decoded(v, true)), Some(more)))
  {
    hide Decoded, IndexOf;
    var s := k + ['='] + v + ['&'] + more;
    IndexOfFirst(k, '=', v + ['&'] + more);
    assert s == k + ['='] + (v + ['&'] + more);
    IndexOfFirst(['='] + v, '&', more);
    CutSlices(k, v, more);
  }

  lemma CutSlices(k: ByteString, v: ByteString, more: ByteString)
    ensures var s := k + ['='] + v + ['&'] + more;
      && s[|k|..] == ['='] + v + ['&'] + more
      && s[..|k|] == k
      && s[|k| + 1..|k| + (1 + |v|)] == v
      && s[|k| + (1 + |v|) + 1..] == more
  {
  }

  // One encoded pair, alone or followed by '&' and more.
  lemma CutFirst(p: Param, more: Option<ByteString>)
    requires '=' !in p.key
    ensures var tail := if more.None? then [] else ['&'] + more.value;
      Cut(JoinPair(p) + tail) == Some((p, more))
  {
    hide Encoded, Decoded, Cut;
    EncodedAlphabet(p.key, true);
    EncodedAlphabet(p.value, true);
    RoundTrip(p.key, true);
    RoundTrip(p.value, true);
    if more.None? {
      CutLast(Encoded(p.key, true), Encoded(p.value, true));
      assert JoinPair(p) + [] == JoinPair(p);
    } else {
      CutMore(Encoded(p.key, true), Encoded(p.value, true), more.value);
      assert JoinPair(p) + (['&'] + more.value) == JoinPair(p) + ['&'] + more.value;
    }
  }

  // The encoder lets '=' through, so a key that contains '=' comes back cut short.
  lemma FirstKeyCutShort(p: Param, tail: ByteString)
    requires '=' in p.key
    ensures var c := Cut(JoinPair(p) + tail); c.Some? && c.value.0.key != p.key
  {
    hide Encoded, Decoded, Cut;
    var i := IndexOf(p.key, '=').value;
    var before, after := p.key[..i], p.key[i + 1..];
    EncodedAlphabet(before, true);
    RoundTrip(before, true);
    var rest := Encoded(after, true) + ['='] + Encoded(p.value, true) + tail;
    FirstKey(Encoded(before, true), rest);
    EncodedAround(before, after);
    assert p.key == before + ['='] + after;
    var a, b, v := Encoded(before, true), Encoded(after, true), Encoded(p.value, true);
    calc {
      JoinPair(p) + tail;
    ==
      a + ['='] + b + ['='] + v + tail;
    ==
      a + ['='] + (b + ['='] + v + tail);
    }
  }

  lemma EncodedAround(before: ByteString, after: ByteString)
    ensures Encoded(before + ['='] + after, true) == Encoded(before, true) + ['='] + Encoded(after, true)
  {
    EncodedConcat(before + ['='], after, true);
    EncodedConcat(before, ['='], true);
    assert Encoded(['='], true) == ['='] + Encoded([], true);
  }

  // The splitter recovers the joined pairs exactly when no key contains '='.
  lemma {:induction false} SplitInvertsJoin(ps: seq<Param>)
    ensures ParamList(Join(ps)) == ps <==> forall p <- ps :: '=' !in p.key
  {
    hide JoinPair, Cut;
    if ps == [] {
      NoCut([]);
    } else {
      var more := if |ps| == 1 then None else Some(Join(ps[1..]));
      var tail := if more.None? then [] else ['&'] + more.value;
      assert Join(ps) == JoinPair(ps[0]) + tail;
      assert ps == [ps[0]] + ps[1..];
      if '=' in ps[0].key {
        FirstKeyCutShort(ps[0], tail);
      } else {
        CutFirst(ps[0], more);
        if more.Some? {
          SplitInvertsJoin(ps[1..]);
        }
      }
    }
  }

  // ---- Splitting any query ---------------------------------------------------------

  // A pair as it stands in the query, the key without an equals sign and the value without an
  // ampersand; either may be empty.
  datatype Raw = Raw(key: ByteString, value: ByteString)

  predicate RawOk(r: Raw) { '=' !in r.key && '&' !in r.value }

  function RawText(r: Raw): ByteString { r.key + ['='] + r.value }

  // Pairs with an ampersand between them, and after the last one perhaps an ampersand and a
  // rest without an equals sign.
  function RawsText(rs: seq<Raw>, rest: Option<ByteString>): ByteString {
    if rs == [] then (if rest.None? then [] else rest.value)
    else if |rs| == 1 && rest.None? then RawText(rs[0])
    else RawText(rs[0]) + ['&'] + RawsText(rs[1..], rest)
  }

  function RawParams(rs: seq<Raw>): seq<Param> {
    if rs == [] then [] else [Param(Decoded(rs[0].key, true), Decoded(rs[0].value, true))] + RawParams(rs[1..])
  }

  predicate RestOk(rest: Option<ByteString>) { rest.Some? ==> '=' !in rest.value }

  // The pairs come out decoded and in order; the rest is ignored.
  lemma {:induction false} RawSplit(rs: seq<Raw>, rest: Option<ByteString>)
    requires (forall r <- rs :: RawOk(r)) && RestOk(rest)
    ensures ParamList(RawsText(rs, rest)) == RawParams(rs)
    decreases |rs|
  {
    hide Decoded, Cut;
    if rs == [] {
      NoEquals(RawsText(rs, rest));
    } else {
      assert RawOk(rs[0]);
      var k, v := rs[0].key, rs[0].value;
      if |rs| == 1 && rest.None? {
        CutLast(k, v);
        assert RawParams(rs) == [Param(Decoded(k, true), Decoded(v, true))];
      } else {
        CutMore(k, v, RawsText(rs[1..], rest));
        RawSplit(rs[1..], rest);
      }
    }
  }

  lemma NoEquals(s: ByteString)
    requires '=' !in s
    ensures ParamList(s) == []
  {
    hide IndexOf;
    NoCut(s);
  }

  // Every query is of that form.
  lemma {:induction false} EveryQuery(s: ByteString) returns (rs: seq<Raw>, rest: Option<ByteString>)
    ensures RawsText(rs, rest) == s && (forall r <- rs :: RawOk(r)) && RestOk(rest)
    decreases |s|
  {
    hide IndexOf;
    var eq := IndexOf(s, '=');
    if eq.None? {
      rs, rest := [], Some(s);
    } else {
      var k, t := s[..eq.value], s[eq.value + 1..];
      assert s == k + ['='] + t;
      var amp := IndexOf(t, '&');
      if amp.None? {
        rs, rest := [Raw(k, t)], None;
        assert '&' !in t;
      } else {
        var v, u := t[..amp.value], t[amp.value + 1..];
        assert t == v + ['&'] + u;
        var more, last := EveryQuery(u);
        rs, rest := [Raw(k, v)] + more, last;
        assert rs[1..] == more;
        if more == [] && last.None? {
          rest := Some(u);
        }
        assert s == k + ['='] + v + ['&'] + u;
      }
    }
  }

  lemma NoCut(s: ByteString)
    requires IndexOf(s, '=').None?
    ensures Cut(s).None?
  {
  }

  // ---- Equal keys --------------------------------------------------------------------

  // What strcasecmp sees of a key.
  function UpToNul(k: ByteString): ByteString {
    match IndexOf(k, '\0') case None => k case Some(i) => k[..i]
  }

  predicate SameLetter(a: Byte, b: Byte) {
    a == b || ('A' <= a <= 'Z' && b as int == a as int + 32) || ('A' <= b <= 'Z' && a as int == b as int + 32)
  }

  lemma {:induction false} CaseKeyIs(k: ByteString)
    ensures |CaseKey(k)| == |UpToNul(k)|
    ensures forall i :: 0 <= i < |CaseKey(k)| ==>
      CaseKey(k)[i] == if 'A' <= k[i] <= 'Z' then (k[i] as int + 32) as char else k[i]
  {
    if k != [] && k[0] != '\0' {
      CaseKeyIs(k[1..]);
      var n := |UpToNul(k)|;
      assert IndexOf(k, '\0') == match IndexOf(k[1..], '\0') case None => None case Some(i) => Some(i + 1);
      forall i | 0 < i < n ensures CaseKey(k)[i] == CaseKey(k[1..])[i - 1] && k[i] == k[1..][i - 1] {
      }
    }
  }

  // Two keys are one key of the map exactly when they agree up to their first NUL, byte by
  // byte but for the case of letters.
  lemma CaseKeysEqual(a: ByteString, b: ByteString)
    ensures CaseKey(a) == CaseKey(b)
       <==> |UpToNul(a)| == |UpToNul(b)| && forall i :: 0 <= i < |UpToNul(a)| ==> SameLetter(a[i], b[i])
  {
    hide CaseKey;
    CaseKeyIs(a);
    CaseKeyIs(b);
    UpToNulShort(a);
    UpToNulShort(b);
    if |UpToNul(a)| == |UpToNul(b)| {
      forall i | 0 <= i < |UpToNul(a)| ensures SameLetter(a[i], b[i]) <==> CaseKey(a)[i] == CaseKey(b)[i] {
      }
    }
  }

  lemma UpToNulShort(a: ByteString)
    ensures |UpToNul(a)| <= |a|
  {
    hide IndexOf;
  }

  // Of the pairs with one key the first stays, unless the map has that key already.
  lemma {:induction false} FirstStays(m: ParamMap, ps: seq<Param>, i: nat)
    requires i < |ps| && CaseKey(ps[i].key) !in m
    requires forall j :: 0 <= j < i ==> CaseKey(ps[j].key) != CaseKey(ps[i].key)
    ensures CaseKey(ps[i].key) in InsertAll(m, ps) && InsertAll(m, ps)[CaseKey(ps[i].key)] == ps[i]
    decreases ps
  {
    hide CaseKey;
    if i == 0 {
      InsertAllKeeps(Insert(m, ps[0]), ps[1..]);
    } else {
      assert CaseKey(ps[0].key) != CaseKey(ps[i].key);
      FirstStays(Insert(m, ps[0]), ps[1..], i - 1);
    }
  }

  ghost predicate Distinct(ps: seq<Param>) {
    forall i, j :: 0 <= i < j < |ps| ==> CaseKey(ps[i].key) != CaseKey(ps[j].key)
  }

  lemma {:induction false} InsertAllKeeps(m: ParamMap, ps: seq<Param>)
    ensures m.Keys <= InsertAll(m, ps).Keys && forall k <- m :: InsertAll(m, ps)[k] == m[k]
    ensures |InsertAll(m, ps)| <= |m| + |ps|
    ensures forall p <- ps :: CaseKey(p.key) in InsertAll(m, ps)
    decreases ps
  {
    if ps != [] {
      InsertAllKeeps(Insert(m, ps[0]), ps[1..]);
      assert CaseKey(ps[0].key) in Insert(m, ps[0]);
    }
  }

  ghost predicate AllHeld(m: ParamMap, ps: seq<Param>) {
    forall p <- ps :: CaseKey(p.key) in m && m[CaseKey(p.key)] == p
  }

  // All pairs arrive in the map, one entry each, exactly when their keys differ
  // from each other and from those already there, ignoring case and up to a NUL.
  lemma {:induction false} InsertAllExact(m: ParamMap, ps: seq<Param>)
    ensures |InsertAll(m, ps)| == |m| + |ps|
       <==> Distinct(ps) && forall p <- ps :: CaseKey(p.key) !in m
    ensures |InsertAll(m, ps)| == |m| + |ps| ==> AllHeld(InsertAll(m, ps), ps)
    decreases ps
  {
    if ps != [] {
      var k, rest := CaseKey(ps[0].key), ps[1..];
      var m' := Insert(m, ps[0]);
      assert ps == [ps[0]] + rest;
      InsertAllKeeps(m', rest);
      InsertAllExact(m', rest);
      DistinctCons(ps);
    }
  }

  lemma DistinctCons(ps: seq<Param>)
    requires ps != []
    ensures Distinct(ps)
       <==> Distinct(ps[1..]) && forall p <- ps[1..] :: CaseKey(p.key) != CaseKey(ps[0].key)
  {
    var rest := ps[1..];
    assert forall i :: 0 <= i < |rest| ==> rest[i] == ps[i + 1];
    assert forall i :: 1 <= i < |ps| ==> ps[i] == rest[i - 1];
  }

  // A fresh request whose query is the joined encoding of the pairs ends with
  // exactly those pairs in its map, for keys free of '=' and pairwise distinct.
  method ParametersRecovered(ps: seq<Param>) returns (r: HttpRequest)
    requires forall p <- ps :: '=' !in p.key
    requires Distinct(ps)
    ensures fresh(r) && |r.params| == |ps|
    ensures forall p <- ps :: CaseKey(p.key) in r.params && r.params[CaseKey(p.key)] == p
  {
    SplitInvertsJoin(ps);
    InsertAllExact(map[], ps);
    InsertAllKeeps(map[], ps);
    r := new HttpRequest(Join(ps));
    r.InitQueryParam();
  }
}
