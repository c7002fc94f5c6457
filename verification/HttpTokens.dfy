// The value of a Connection header: a list of tokens, three of which set a flag.
module HttpTokens {
  import opened Bytes
  import opened HttpTypes
  import opened HttpHop
  import opened HttpSpec
  import opened HttpExecute
  import opened HttpFraming

  datatype Known = KeepAlive | Close | Upgrade

  function Spelled(t: Known): string {
    match t case KeepAlive => "keep-alive" case Close => "close" case Upgrade => "upgrade"
  }

  function Matching(t: Known): HeaderState {
    match t
    case KeepAlive => MatchingConnectionKeepAlive case Close => MatchingConnectionClose
    case Upgrade => MatchingConnectionUpgrade
  }

  function Hit(t: Known): HeaderState {
    match t
    case KeepAlive => ConnectionKeepAlive case Close => ConnectionClose case Upgrade => ConnectionUpgrade
  }

  // The first bytes of a word, ignoring case.
  predicate Begins(w: ByteString, x: string) {
    |w| <= |x| && forall i :: 0 <= i < |w| ==> Lower(w[i]) == x[i]
  }

  predicate Is(w: ByteString, x: string) { |w| == |x| && Begins(w, x) }

  // What the parser knows after the bytes w of a word that begins like t.
  function WordState(t: Known, w: ByteString): HeaderState {
    if Is(w, Spelled(t)) then Hit(t) else if Begins(w, Spelled(t)) then Matching(t) else MatchingConnectionToken
  }

  // Where it stands: the index counts while it is still matching.
  predicate Matches(f: Fields, t: Known, w: ByteString) {
    w != [] && f.hstate == WordState(t, w) && (f.hstate == Matching(t) ==> f.index == |w| - 1)
  }

  lemma BeginsMore(w: ByteString, c: Byte, x: string)
    ensures Begins(w + [c], x) <==> Begins(w, x) && |w| < |x| && Lower(c) == x[|w|]
  {
    if Begins(w + [c], x) {
      forall i | 0 <= i < |w| ensures Lower(w[i]) == x[i] {
        assert (w + [c])[i] == w[i];
      }
      assert (w + [c])[|w|] == c;
    }
  }

  predicate InToken(ch: Byte) { IsHeaderChar(ch) && ch != CR && ch != LF && ch != ',' }

  // One byte more of the word.
  lemma WordNext(f: Fields, t: Known, w: ByteString, ch: Byte)
    requires Matches(f, t, w) && InToken(ch) && ch != ' '
    ensures ValueNext(f, ch).Good?
    ensures var g := ValueNext(f, ch).f; Matches(g, t, w + [ch]) && g == f.(hstate := g.hstate, index := g.index)
  {
    hide IsHeaderChar, Lower, Begins;
    BeginsMore(w, ch, Spelled(t));
  }

  // ---- Words --------------------------------------------------------------------------------

  // The token that a word can still be after its first byte.
  function Like(ch: Byte): Option<Known> {
    if Lower(ch) == 'k' then Some(KeepAlive) else if Lower(ch) == 'c' then Some(Close)
    else if Lower(ch) == 'u' then Some(Known.Upgrade) else None
  }

  predicate Stands(f: Fields, w: ByteString) {
    && w != []
    && match Like(w[0]) case None => f.hstate == MatchingConnectionToken case Some(t) => Matches(f, t, w)
  }

  lemma WordBegins(f: Fields, ch: Byte)
    requires f.hstate == (match Like(ch) case None => MatchingConnectionToken case Some(t) => Matching(t))
    requires f.hstate != MatchingConnectionToken ==> f.index == 0
    ensures Stands(f, [ch])
  {
    hide Lower;
  }

  lemma OtherNext(f: Fields, ch: Byte)
    requires f.hstate == MatchingConnectionToken && InToken(ch)
    ensures ValueNext(f, ch) == Good(f)
  {
    hide IsHeaderChar, Lower;
  }

  lemma StandsNext(f: Fields, w: ByteString, ch: Byte)
    requires Stands(f, w) && InToken(ch) && ch != ' '
    ensures ValueNext(f, ch).Good?
    ensures var g := ValueNext(f, ch).f; Stands(g, w + [ch]) && g == f.(hstate := g.hstate, index := g.index)
  {
    hide InToken, ValueNext, Matches, Lower;
    match Like(w[0])
    case None => OtherNext(f, ch);
    case Some(t) => WordNext(f, t, w, ch);
  }

  lemma ByteStep(max: nat, f: Fields, log: Log, ch: Byte)
    requires f.state.HeaderValue? && f.nread + 1 <= max && ch != CR && ch != LF && ValueNext(f, ch).Good?
    ensures Step(max, f, log, ch)
         == Next(ValueNext(f, ch).f.(nread := f.nread + 1), Append(log, ValueData, [ch]))
  {
    hide Append, ResponseHop, RequestHop, UrlHop, BodyHop, ValueNext;
    ValueNextIgnoresCount(f, ch, f.nread + 1);
    ValueNextState(f, ch);
  }

  // The rest of a word, from its byte k on.
  lemma {:induction false} WordRest(max: nat, f: Fields, log: Log, w: ByteString, k: nat) returns (g: Fields)
    requires f.state.HeaderValue? && EndsIn(log, ValueData) && 0 < k <= |w| && f.nread + |w| - k <= max
    requires Stands(f, w[..k]) && forall i :: 0 <= i < |w| ==> InToken(w[i]) && w[i] != ' '
    ensures Leads(max, f, log, w[k..], g, Append(log, ValueData, w[k..])) && Stands(g, w)
    ensures g == f.(hstate := g.hstate, index := g.index, nread := f.nread + |w| - k)
    decreases |w| - k
  {
    hide Step, Leads, Append, Stands, InToken, ValueNext;
    if k == |w| {
      g := f;
      LeadsNothing(max, f, log);
      AppendNothing(log, ValueData);
      assert w[k..] == [] && w[..k] == w;
    } else {
      var ch := w[k];
      StandsNext(f, w[..k], ch);
      NotBreak(ch);
      ByteStep(max, f, log, ch);
      var h, log1 := ValueNext(f, ch).f.(nread := f.nread + 1), Append(log, ValueData, [ch]);
      assert w[..k] + [ch] == w[..k + 1];
      StandsStill(ValueNext(f, ch).f, w[..k + 1], f.nread + 1);
      ValueNextState(f, ch);
      AppendEnds(log, ValueData, [ch]);
      g := WordRest(max, h, log1, w, k + 1);
      LeadsByte(max, f, log, ch, h, log1);
      AppendTwice(log, ValueData, [ch], w[k + 1..]);
      assert [ch] + w[k + 1..] == w[k..];
      LeadsThen(max, f, log, [ch], h, log1, w[k + 1..], g, Append(log, ValueData, w[k..]));
    }
  }

  lemma NotBreak(ch: Byte)
    ensures InToken(ch) ==> ch != CR && ch != LF
  {
  }

  lemma StandsStill(f: Fields, w: ByteString, n: nat)
    ensures Stands(f.(nread := n), w) == Stands(f, w)
  {
  }

  // ---- Lists ----------------------------------------------------------------------------------

  // An item of the list: spaces, a word, and spaces.
  datatype Item = Item(lead: ByteString, word: ByteString, tail: ByteString)

  predicate Spaces(s: ByteString) { forall i :: 0 <= i < |s| ==> s[i] == ' ' }

  // The parser looks at the first byte of a word after a comma with bit 5 set, so that it
  // takes none there that is no token byte then.
  predicate ItemOk(it: Item, first: bool) {
    && Spaces(it.lead) && Spaces(it.tail) && (first ==> it.lead == [])
    && it.word != [] && (forall i :: 0 <= i < |it.word| ==> Token(it.word[i]) != '\0')
    && (!first ==> Token(Lower(it.word[0])) != '\0')
  }

  function ItemText(it: Item): ByteString { it.lead + it.word + it.tail }

  function ItemsText(items: seq<Item>): ByteString {
    if items == [] then [] else if |items| == 1 then ItemText(items[0])
    else ItemText(items[0]) + [','] + ItemsText(items[1..])
  }

  // The flag that a word stands for.
  function SetBy(fl: Flags, w: ByteString): Flags {
    if Is(w, "keep-alive") then fl.(keepAlive := true) else if Is(w, "close") then fl.(close := true)
    else if Is(w, "upgrade") then fl.(connectionUpgrade := true) else fl
  }

  // The beginning of a token that a comma follows at once: the parser takes the comma for a
  // byte of the word, and the next item with it.
  predicate Clipped(it: Item) {
    it.tail == [] && exists t :: Begins(it.word, Spelled(t)) && |it.word| < |Spelled(t)|
  }

  // The flags after a list: those of the items that are heard.
  function FlagsOf(fl: Flags, items: seq<Item>, heard: bool): Flags
    decreases |items|
  {
    if items == [] then fl
    else FlagsOf(if heard then SetBy(fl, items[0].word) else fl, items[1..], !(heard && Clipped(items[0])))
  }

  function WordEnd(w: ByteString): HeaderState
    requires w != []
  {
    match Like(w[0]) case None => MatchingConnectionToken case Some(t) => WordState(t, w)
  }

  predicate IsHit(h: HeaderState) { h.ConnectionKeepAlive? || h.ConnectionClose? || h.ConnectionUpgrade? }

  function ItemEnd(it: Item): HeaderState
    requires it.word != []
  {
    if it.tail == [] || IsHit(WordEnd(it.word)) then WordEnd(it.word) else MatchingConnectionToken
  }

  predicate Ended(f: Fields, it: Item, heard: bool) {
    && it.word != [] && f.hstate == (if heard then ItemEnd(it) else MatchingConnectionToken)
    && (f.hstate != MatchingConnectionToken && !IsHit(f.hstate) ==> Stands(f, it.word))
  }

  lemma TokenByte(ch: Byte)
    requires Token(ch) != '\0'
    ensures InToken(ch) && ch != ' ' && ch != '\t' && ch != CR && ch != LF
  {
  }

  lemma LikeOne(w: ByteString, t: Known)
    requires w != [] && Begins(w, Spelled(t))
    ensures Like(w[0]) == Some(t)
  {
    hide Lower;
  }

  // ---- Single bytes of a list --------------------------------------------------------------------

  lemma SpaceNext(f: Fields)
    requires f.hstate.MatchingConnectionTokenStart? || f.hstate.MatchingConnectionToken? || IsHit(f.hstate)
    ensures ValueNext(f, ' ') == Good(f)
  {
  }

  lemma ClipNext(f: Fields, w: ByteString, ch: Byte)
    requires Stands(f, w) && !IsHit(f.hstate) && (ch == ' ' || ch == ',') && f.hstate != MatchingConnectionToken
    ensures ValueNext(f, ch) == Good(f.(hstate := MatchingConnectionToken, index := f.index + 1))
  {
    var t := Like(w[0]).value;
    assert Matches(f, t, w);
    assert Spelled(t)[|w|] != ' ' && Spelled(t)[|w|] != ',' by {
      Plain(t, |w|);
    }
  }

  lemma Plain(t: Known, i: nat)
    ensures i < |Spelled(t)| ==> Spelled(t)[i] != ' ' && Spelled(t)[i] != ',' && Spelled(t)[i] != ')'
  {
  }

  lemma CommaNext(f: Fields)
    requires f.hstate.MatchingConnectionToken? || IsHit(f.hstate)
    ensures ValueNext(f, ',') == Good(WithValueFlag(f).(hstate := MatchingConnectionTokenStart, index := 0))
  {
  }

  lemma StartNext(f: Fields, ch: Byte)
    requires f.hstate.MatchingConnectionTokenStart? && Token(ch) != '\0' && Token(Lower(ch)) != '\0' && f.index == 0
    ensures ValueNext(f, ch).Good?
    ensures var g := ValueNext(f, ch).f; Stands(g, [ch]) && g == f.(hstate := g.hstate)
  {
    TokenByte(ch);
    var h := match Like(ch) case None => MatchingConnectionToken case Some(t) => Matching(t);
    StartsLike(f, ch, h);
    WordBegins(f.(hstate := h), ch);
  }

  lemma StartsLike(f: Fields, ch: Byte, h: HeaderState)
    requires f.hstate.MatchingConnectionTokenStart? && Token(Lower(ch)) != '\0' && InToken(ch)
    requires h == match Like(ch) case None => MatchingConnectionToken case Some(t) => Matching(t)
    ensures ValueNext(f, ch) == Good(f.(hstate := h))
  {
    hide Lower, IsHeaderChar;
  }

  // ---- Runs over a list ---------------------------------------------------------------------------

  lemma {:induction false} SpacesRun(max: nat, f: Fields, log: Log, s: ByteString)
    requires f.state.HeaderValue? && f.nread + |s| <= max && EndsIn(log, ValueData) && Spaces(s)
    requires f.hstate.MatchingConnectionTokenStart? || f.hstate.MatchingConnectionToken? || IsHit(f.hstate)
    ensures Leads(max, f, log, s, f.(nread := f.nread + |s|), Append(log, ValueData, s))
    decreases |s|
  {
    hide Step, Append, ValueNext, Leads;
    if s == [] {
      LeadsNothing(max, f, log);
      AppendNothing(log, ValueData);
    } else {
      var g, log1 := f.(nread := f.nread + 1), Append(log, ValueData, [s[0]]);
      SpaceNext(f);
      ByteStep(max, f, log, s[0]);
      LeadsByte(max, f, log, s[0], g, log1);
      AppendEnds(log, ValueData, [s[0]]);
      SpacesRun(max, g, log1, s[1..]);
      AppendTwice(log, ValueData, [s[0]], s[1..]);
      assert [s[0]] + s[1..] == s;
      LeadsThen(max, f, log, [s[0]], g, log1, s[1..], f.(nread := f.nread + |s|), Append(log, ValueData, s));
    }
  }

  lemma {:induction false} OtherRun(max: nat, f: Fields, log: Log, s: ByteString)
    requires f.state.HeaderValue? && f.nread + |s| <= max && EndsIn(log, ValueData)
    requires f.hstate.MatchingConnectionToken? && forall i :: 0 <= i < |s| ==> InToken(s[i])
    ensures Leads(max, f, log, s, f.(nread := f.nread + |s|), Append(log, ValueData, s))
    decreases |s|
  {
    hide Step, Append, ValueNext, Leads, InToken;
    if s == [] {
      LeadsNothing(max, f, log);
      AppendNothing(log, ValueData);
    } else {
      var g, log1 := f.(nread := f.nread + 1), Append(log, ValueData, [s[0]]);
      OtherNext(f, s[0]);
      NotBreak(s[0]);
      ByteStep(max, f, log, s[0]);
      LeadsByte(max, f, log, s[0], g, log1);
      AppendEnds(log, ValueData, [s[0]]);
      OtherRun(max, g, log1, s[1..]);
      AppendTwice(log, ValueData, [s[0]], s[1..]);
      assert [s[0]] + s[1..] == s;
      LeadsThen(max, f, log, [s[0]], g, log1, s[1..], f.(nread := f.nread + |s|), Append(log, ValueData, s));
    }
  }

  // The spaces after a word.
  lemma TailRun(max: nat, f: Fields, log: Log, it: Item) returns (g: Fields)
    requires f.state.HeaderValue? && f.nread + |it.tail| <= max && EndsIn(log, ValueData) && Spaces(it.tail)
    requires it.word != [] && Stands(f, it.word)
    ensures Leads(max, f, log, it.tail, g, Append(log, ValueData, it.tail)) && Ended(g, it, true)
    ensures g == f.(hstate := g.hstate, index := g.index, nread := f.nread + |it.tail|)
  {
    hide Step, Append, ValueNext, Leads, WordState;
    if it.tail == [] || IsHit(f.hstate) || f.hstate.MatchingConnectionToken? {
      if it.tail == [] {
        LeadsNothing(max, f, log);
        AppendNothing(log, ValueData);
      } else {
        SpacesRun(max, f, log, it.tail);
      }
      g := f.(nread := f.nread + |it.tail|);
      StandsStill(f, it.word, g.nread);
    } else {
      var h, log1 := f.(hstate := MatchingConnectionToken, index := f.index + 1, nread := f.nread + 1),
        Append(log, ValueData, [' ']);
      ClipNext(f, it.word, ' ');
      ByteStep(max, f, log, ' ');
      LeadsByte(max, f, log, ' ', h, log1);
      AppendEnds(log, ValueData, [' ']);
      SpacesRun(max, h, log1, it.tail[1..]);
      g := h.(nread := h.nread + |it.tail| - 1);
      AppendTwice(log, ValueData, [' '], it.tail[1..]);
      assert [' '] + it.tail[1..] == it.tail;
      LeadsThen(max, f, log, [' '], h, log1, it.tail[1..], g, Append(log, ValueData, it.tail));
    }
  }

  // From the first byte of the word on.
  lemma WordRun(max: nat, f: Fields, log: Log, it: Item) returns (g: Fields)
    requires f.state.HeaderValue? && EndsIn(log, ValueData) && ItemOk(it, true) && Stands(f, [it.word[0]])
    requires f.nread + |it.word| - 1 + |it.tail| <= max
    ensures Leads(max, f, log, it.word[1..] + it.tail, g, Append(log, ValueData, it.word[1..] + it.tail))
    ensures Ended(g, it, true)
    ensures g == f.(hstate := g.hstate, index := g.index, nread := f.nread + |it.word| - 1 + |it.tail|)
  {
    hide Append, Leads, Stands, InToken, Ended;
    var w := it.word;
    assert w[..1] == [w[0]];
    forall i | 0 <= i < |w| ensures InToken(w[i]) && w[i] != ' ' {
      TokenByte(w[i]);
    }
    var h := WordRest(max, f, log, w, 1);
    AppendMore(log, w[1..]);
    var log1 := Append(log, ValueData, w[1..]);
    g := TailRun(max, h, log1, it);
    AppendTwice(log, ValueData, w[1..], it.tail);
    LeadsThen(max, f, log, w[1..], h, log1, it.tail, g, Append(log, ValueData, w[1..] + it.tail));
  }

  lemma AppendMore(log: Log, s: ByteString)
    requires EndsIn(log, ValueData)
    ensures EndsIn(Append(log, ValueData, s), ValueData)
  {
  }

  // An item after a comma that is heard.
  lemma HeardRun(max: nat, f: Fields, log: Log, it: Item) returns (g: Fields)
    requires f.state.HeaderValue? && EndsIn(log, ValueData) && ItemOk(it, false) && f.nread + |ItemText(it)| <= max
    requires f.hstate.MatchingConnectionTokenStart? && f.index == 0
    ensures Leads(max, f, log, ItemText(it), g, Append(log, ValueData, ItemText(it))) && Ended(g, it, true)
    ensures g == f.(hstate := g.hstate, index := g.index, nread := f.nread + |ItemText(it)|)
  {
    hide Append, Leads, Stands, Ended, Step, ValueNext;
    var w := it.word;
    var a, logA := f.(nread := f.nread + |it.lead|), Append(log, ValueData, it.lead);
    SpacesRun(max, f, log, it.lead);
    AppendMore(log, it.lead);
    StartNext(a, w[0]);
    TokenByte(w[0]);
    ByteStep(max, a, logA, w[0]);
    var b, logB := ValueNext(a, w[0]).f.(nread := a.nread + 1), Append(logA, ValueData, [w[0]]);
    StandsStill(ValueNext(a, w[0]).f, [w[0]], a.nread + 1);
    LeadsByte(max, a, logA, w[0], b, logB);
    LeadsThen(max, f, log, it.lead, a, logA, [w[0]], b, logB);
    AppendMore(logA, [w[0]]);
    g := WordRun(max, b, logB, it.(lead := []));
    EndedStill(g, it);
    var rest := w[1..] + it.tail;
    LeadsThen(max, f, log, it.lead + [w[0]], b, logB, rest, g, Append(logB, ValueData, rest));
    AppendTwice(log, ValueData, it.lead, [w[0]]);
    AppendTwice(log, ValueData, it.lead + [w[0]], rest);
    assert it.lead + [w[0]] + rest == ItemText(it);
  }

  lemma EndedStill(f: Fields, it: Item)
    ensures Ended(f, it.(lead := []), true) == Ended(f, it, true)
  {
  }

  lemma FirstStep(max: nat, f: Fields, log: Log, ch: Byte)
    requires f.state.HeaderValueDiscardWs? && f.hstate.Connection? && f.nread + 1 <= max
    requires ch != ' ' && ch != '\t' && ch != CR && ch != LF
    ensures Step(max, f, log, ch)
         == Next(f.(nread := f.nread + 1, state := HeaderValue, index := 0,
                    hstate := match Like(ch) case None => MatchingConnectionToken case Some(t) => Matching(t)),
                 Append(log, ValueData, [ch]))
  {
    hide Append, ResponseHop, RequestHop, UrlHop, BodyHop, Lower;
    AppendTwice(log, ValueData, [], [ch]);
    assert [] + [ch] == [ch];
  }

  // The first item of the list.
  lemma FirstRun(max: nat, f: Fields, log: Log, it: Item) returns (g: Fields)
    requires f.state.HeaderValueDiscardWs? && f.hstate.Connection? && ItemOk(it, true)
    requires f.nread + |ItemText(it)| <= max
    ensures Leads(max, f, log, ItemText(it), g, Append(log, ValueData, ItemText(it))) && Ended(g, it, true)
    ensures g == f.(state := HeaderValue, hstate := g.hstate, index := g.index, nread := f.nread + |ItemText(it)|)
  {
    hide Append, Leads, Stands, Ended, Step, ValueNext;
    var w := it.word;
    TokenByte(w[0]);
    FirstStep(max, f, log, w[0]);
    var b := f.(nread := f.nread + 1, state := HeaderValue, index := 0,
                hstate := match Like(w[0]) case None => MatchingConnectionToken case Some(t) => Matching(t));
    var logB := Append(log, ValueData, [w[0]]);
    WordBegins(b, w[0]);
    LeadsByte(max, f, log, w[0], b, logB);
    AppendEnds(log, ValueData, [w[0]]);
    g := WordRun(max, b, logB, it);
    var rest := w[1..] + it.tail;
    LeadsThen(max, f, log, [w[0]], b, logB, rest, g, Append(logB, ValueData, rest));
    AppendTwice(log, ValueData, [w[0]], rest);
    assert [w[0]] + rest == ItemText(it);
  }

  // An item that the parser takes for a part of the word before it.
  lemma SwallowedRun(max: nat, f: Fields, log: Log, it: Item) returns (g: Fields)
    requires f.state.HeaderValue? && EndsIn(log, ValueData) && ItemOk(it, false) && f.nread + |ItemText(it)| <= max
    requires f.hstate.MatchingConnectionToken?
    ensures Leads(max, f, log, ItemText(it), g, Append(log, ValueData, ItemText(it))) && Ended(g, it, false)
    ensures g == f.(nread := f.nread + |ItemText(it)|)
  {
    hide Append, Leads, Token, InToken;
    var s := ItemText(it);
    forall i | 0 <= i < |s| ensures InToken(s[i]) {
      if s[i] == ' ' {
        SpaceInToken();
      } else {
        assert s[i] in it.word;
        TokenByte(s[i]);
      }
    }
    OtherRun(max, f, log, s);
    g := f.(nread := f.nread + |s|);
  }

  lemma SpaceInToken()
    ensures InToken(' ')
  {
  }

  // ---- What a comma does ----------------------------------------------------------------------------

  // Only one known token begins with a given byte.
  lemma OneLike(w: ByteString, t: Known, u: Known)
    requires w != [] && Begins(w, Spelled(t)) && Begins(w, Spelled(u))
    ensures t == u
  {
    hide Begins, Spelled, Like;
    LikeOne(w, t);
    LikeOne(w, u);
  }

  lemma BeginsShort(w: ByteString, x: string)
    ensures Begins(w, x) ==> |w| <= |x|
  {
  }

  lemma EndWhen(it: Item)
    requires it.word != []
    ensures Clipped(it) <==> !IsHit(ItemEnd(it)) && ItemEnd(it) != MatchingConnectionToken
    ensures forall t :: ItemEnd(it) == Hit(t) <==> Is(it.word, Spelled(t))
  {
    hide Begins, Like, Spelled;
    var w := it.word;
    forall t | Begins(w, Spelled(t)) ensures Like(w[0]) == Some(t) && |w| <= |Spelled(t)| {
      LikeOne(w, t);
      BeginsShort(w, Spelled(t));
    }
  }

  // The flag that is set when the list goes on or ends.
  lemma FlagIs(f: Fields, it: Item, heard: bool)
    requires Ended(f, it, heard)
    ensures WithValueFlag(f) == f.(flags := if heard then SetBy(f.flags, it.word) else f.flags)
  {
    hide Clipped, ItemEnd, Begins, Stands;
    if heard {
      EndWhen(it);
      SetByKnown(f.flags, it.word);
      assert forall t :: f.hstate == Hit(t) <==> Is(it.word, Spelled(t));
      HitFlag(f);
    } else {
      assert WithValueFlag(f) == f;
    }
  }

  lemma SetByKnown(fl: Flags, w: ByteString)
    ensures Is(w, Spelled(KeepAlive)) ==> SetBy(fl, w) == fl.(keepAlive := true)
    ensures Is(w, Spelled(Close)) ==> SetBy(fl, w) == fl.(close := true)
    ensures Is(w, Spelled(Known.Upgrade)) ==> SetBy(fl, w) == fl.(connectionUpgrade := true)
    ensures (forall t :: !Is(w, Spelled(t))) ==> SetBy(fl, w) == fl
  {
    hide Begins;
    assert Spelled(KeepAlive) == "keep-alive" && Spelled(Close) == "close" && Spelled(Known.Upgrade) == "upgrade";
    assert |Spelled(KeepAlive)| == 10 && |Spelled(Close)| == 5 && |Spelled(Known.Upgrade)| == 7;
  }

  lemma HitFlag(f: Fields)
    ensures f.hstate == Hit(KeepAlive) ==> WithValueFlag(f).flags == f.flags.(keepAlive := true)
    ensures f.hstate == Hit(Close) ==> WithValueFlag(f).flags == f.flags.(close := true)
    ensures f.hstate == Hit(Known.Upgrade) ==> WithValueFlag(f).flags == f.flags.(connectionUpgrade := true)
    ensures (forall t :: f.hstate != Hit(t)) ==> WithValueFlag(f).flags == f.flags
    ensures WithValueFlag(f) == f.(flags := WithValueFlag(f).flags)
  {
    assert f.hstate == ConnectionKeepAlive <==> f.hstate == Hit(KeepAlive);
    assert f.hstate == ConnectionClose <==> f.hstate == Hit(Close);
    assert f.hstate == ConnectionUpgrade <==> f.hstate == Hit(Known.Upgrade);
  }

  // Whether the item after a comma is heard.
  function StillHeard(it: Item, heard: bool): bool { !(heard && Clipped(it)) }

  lemma CommaRun(max: nat, f: Fields, log: Log, it: Item, heard: bool) returns (g: Fields)
    requires f.state.HeaderValue? && f.nread + 1 <= max && EndsIn(log, ValueData) && Ended(f, it, heard)
    ensures Leads(max, f, log, [','], g, Append(log, ValueData, [',']))
    ensures g == f.(nread := f.nread + 1, hstate := g.hstate, index := g.index,
                    flags := if heard then SetBy(f.flags, it.word) else f.flags)
    ensures if StillHeard(it, heard) then g.hstate.MatchingConnectionTokenStart? && g.index == 0
            else g.hstate.MatchingConnectionToken?
  {
    hide Append, Leads, Stands, Step, ValueNext, WithValueFlag, Clipped, ItemEnd, SetBy;
    EndWhen(it);
    FlagIs(f, it, heard);
    var h: Fields;
    if StillHeard(it, heard) {
      CommaNext(f);
      h := WithValueFlag(f).(hstate := MatchingConnectionTokenStart, index := 0);
    } else {
      ClipNext(f, it.word, ',');
      ClippedSetsNothing(it, f.flags);
      h := f.(hstate := MatchingConnectionToken, index := f.index + 1);
    }
    assert ValueNext(f, ',') == Good(h);
    ByteStep(max, f, log, ',');
    g := h.(nread := f.nread + 1);
    LeadsByte(max, f, log, ',', g, Append(log, ValueData, [',']));
  }

  lemma ClippedSetsNothing(it: Item, fl: Flags)
    requires it.word != [] && Clipped(it)
    ensures SetBy(fl, it.word) == fl
  {
    hide Begins, Spelled, SetBy;
    SetByKnown(fl, it.word);
    var t :| Begins(it.word, Spelled(t)) && |it.word| < |Spelled(t)|;
    forall u ensures !Is(it.word, Spelled(u)) {
      if Is(it.word, Spelled(u)) {
        OneLike(it.word, t, u);
      }
    }
  }

  // ---- Whole lists ------------------------------------------------------------------------------------

  predicate ItemsOk(items: seq<Item>) {
    forall i :: 0 <= i < |items| ==> ItemOk(items[i], i == 0)
  }

  function MoreText(items: seq<Item>): ByteString {
    if |items| <= 1 then [] else [','] + ItemsText(items[1..])
  }

  lemma ItemsMore(items: seq<Item>)
    requires items != []
    ensures ItemsText(items) == ItemText(items[0]) + MoreText(items)
  {
    hide ItemText;
    if |items| > 1 {
      Joined(ItemText(items[0]), [','], ItemsText(items[1..]));
    } else {
      Joined(ItemText(items[0]), [], []);
    }
  }

  lemma Joined(a: ByteString, b: ByteString, c: ByteString)
    ensures a + b + c == a + (b + c) && a + [] == a
  {
  }

  lemma EndedHow(f: Fields, it: Item, heard: bool)
    requires Ended(f, it, heard)
    ensures !f.hstate.TransferEncodingChunked?
  {
    hide Begins, Like;
  }

  // What follows the first item.
  lemma {:induction false} MoreRun(max: nat, f: Fields, log: Log, items: seq<Item>, heard: bool) returns (g: Fields)
    requires f.state.HeaderValue? && EndsIn(log, ValueData) && f.nread + |MoreText(items)| <= max
    requires items != [] && (forall i :: 0 < i < |items| ==> ItemOk(items[i], false)) && Ended(f, items[0], heard)
    ensures Leads(max, f, log, MoreText(items), g, Append(log, ValueData, MoreText(items)))
    ensures WithValueFlag(g) == f.(hstate := g.hstate, index := g.index, nread := f.nread + |MoreText(items)|,
                                   flags := FlagsOf(f.flags, items, heard))
    ensures g.state.HeaderValue? && !g.hstate.TransferEncodingChunked?
    decreases |items|
  {
    hide Append, Leads, Ended, WithValueFlag, SetBy, Clipped, ItemOk, ItemText, ItemsText;
    FlagIs(f, items[0], heard);
    if |items| == 1 {
      g := f;
      LeadsNothing(max, f, log);
      AppendNothing(log, ValueData);
      assert items[1..] == [];
      EndedHow(f, items[0], heard);
    } else {
      var h := CommaRun(max, f, log, items[0], heard);
      var log1 := Append(log, ValueData, [',']);
      AppendMore(log, [',']);
      ItemsMore(items[1..]);
      assert items[1..][0] == items[1];
      var k := AnyRun(max, h, log1, items[1], StillHeard(items[0], heard));
      var t, log2 := ItemText(items[1]), Append(log1, ValueData, ItemText(items[1]));
      AppendMore(log1, t);
      g := MoreRun(max, k, log2, items[1..], StillHeard(items[0], heard));
      var m := MoreText(items[1..]);
      LeadsThen(max, f, log, [','], h, log1, t, k, log2);
      LeadsThen(max, f, log, [','] + t, k, log2, m, g, Append(log2, ValueData, m));
      AppendTwice(log, ValueData, [','], t);
      AppendTwice(log, ValueData, [','] + t, m);
      assert [','] + t + m == [','] + (t + m);
    }
  }

  // An item after a comma, heard or not.
  lemma AnyRun(max: nat, f: Fields, log: Log, it: Item, heard: bool) returns (g: Fields)
    requires f.state.HeaderValue? && EndsIn(log, ValueData) && ItemOk(it, false) && f.nread + |ItemText(it)| <= max
    requires if heard then f.hstate.MatchingConnectionTokenStart? && f.index == 0 else f.hstate.MatchingConnectionToken?
    ensures Leads(max, f, log, ItemText(it), g, Append(log, ValueData, ItemText(it))) && Ended(g, it, heard)
    ensures g == f.(hstate := g.hstate, index := g.index, nread := f.nread + |ItemText(it)|)
  {
    hide Append, Leads, Ended, ItemOk, ItemText;
    if heard {
      g := HeardRun(max, f, log, it);
    } else {
      g := SwallowedRun(max, f, log, it);
    }
  }

  // ---- What a list says --------------------------------------------------------------------------------

  // Whether item i is heard: the one before it was, and was not clipped, or was not itself.
  predicate Heard(items: seq<Item>, i: nat)
    requires i < |items|
  {
    i == 0 || !(Heard(items, i - 1) && Clipped(items[i - 1]))
  }

  // A heard item is the word x, ignoring case.
  predicate Says(items: seq<Item>, x: string) {
    exists i :: 0 <= i < |items| && Heard(items, i) && Is(items[i].word, x)
  }

  function With(fl: Flags, keepAlive: bool, close: bool, upgrade: bool): Flags {
    fl.(keepAlive := fl.keepAlive || keepAlive, close := fl.close || close,
        connectionUpgrade := fl.connectionUpgrade || upgrade)
  }

  // The flags after a list, from what it says.
  lemma FlagsSay(fl: Flags, items: seq<Item>)
    ensures FlagsOf(fl, items, true)
         == With(fl, Says(items, "keep-alive"), Says(items, "close"), Says(items, "upgrade"))
  {
    hide Is, Clipped, With;
    FlagsFrom(fl, items, 0, true);
    assert items[0..] == items;
    FromAll(items, "keep-alive");
    FromAll(items, "close");
    FromAll(items, "upgrade");
  }

  predicate SaysFrom(items: seq<Item>, k: nat, x: string) {
    exists i :: k <= i < |items| && Heard(items, i) && Is(items[i].word, x)
  }

  lemma FromAll(items: seq<Item>, x: string)
    ensures SaysFrom(items, 0, x) == Says(items, x)
  {
    hide Is, Heard;
  }

  lemma {:induction false} FlagsFrom(fl: Flags, items: seq<Item>, k: nat, heard: bool)
    requires k <= |items| && (k < |items| ==> heard == Heard(items, k))
    ensures FlagsOf(fl, items[k..], heard)
         == With(fl, SaysFrom(items, k, "keep-alive"), SaysFrom(items, k, "close"), SaysFrom(items, k, "upgrade"))
    decreases |items| - k
  {
    hide Is, Clipped, SetBy, SaysFrom, With;
    if k == |items| {
      NothingFrom(fl, items);
    } else {
      var w, more := items[k].word, items[k + 1..];
      assert items[k..][0] == items[k] && items[k..][1..] == more;
      var next := StillHeard(items[k], heard);
      var fl1 := if heard then SetBy(fl, w) else fl;
      assert FlagsOf(fl, items[k..], heard) == FlagsOf(fl1, more, next);
      FlagsFrom(fl1, items, k + 1, next);
      FromNext(items, k, "keep-alive");
      FromNext(items, k, "close");
      FromNext(items, k, "upgrade");
      SetBySays(fl, w, heard);
      WithTwice(fl, heard && Is(w, "keep-alive"), heard && Is(w, "close"), heard && Is(w, "upgrade"),
                SaysFrom(items, k + 1, "keep-alive"), SaysFrom(items, k + 1, "close"),
                SaysFrom(items, k + 1, "upgrade"));
    }
  }

  lemma WithTwice(fl: Flags, a: bool, b: bool, c: bool, a': bool, b': bool, c': bool)
    ensures With(With(fl, a, b, c), a', b', c') == With(fl, a' || a, b' || b, c' || c)
  {
  }

  lemma NothingFrom(fl: Flags, items: seq<Item>)
    ensures With(fl, SaysFrom(items, |items|, "keep-alive"), SaysFrom(items, |items|, "close"),
                 SaysFrom(items, |items|, "upgrade")) == fl
  {
  }

  lemma SetBySays(fl: Flags, w: ByteString, heard: bool)
    ensures (if heard then SetBy(fl, w) else fl)
         == With(fl, heard && Is(w, "keep-alive"), heard && Is(w, "close"), heard && Is(w, "upgrade"))
  {
    hide Is;
    OneOf(w);
  }

  lemma FromNext(items: seq<Item>, k: nat, x: string)
    requires k < |items|
    ensures SaysFrom(items, k, x) <==> SaysFrom(items, k + 1, x) || (Heard(items, k) && Is(items[k].word, x))
  {
    hide Is, Heard;
  }

  lemma OneOf(w: ByteString)
    ensures !(Is(w, "keep-alive") && Is(w, "close")) && !(Is(w, "keep-alive") && Is(w, "upgrade"))
    ensures !(Is(w, "close") && Is(w, "upgrade"))
  {
    hide Begins;
    assert |"keep-alive"| == 10 && |"close"| == 5 && |"upgrade"| == 7;
  }

  // Unless an item but the last is clipped, a list says all its words.
  lemma {:induction false} AllHeard(items: seq<Item>, i: nat)
    requires i < |items| && forall j :: 0 <= j < i ==> !Clipped(items[j])
    ensures Heard(items, i)
  {
    if i > 0 {
      AllHeard(items, i - 1);
    }
  }

  // With "c, close" the parser does not hear close.
  lemma NotHeard() returns (items: seq<Item>)
    ensures ItemsOk(items) && ItemsText(items) == "c, close"
    ensures |items| == 2 && Is(items[1].word, "close") && !Says(items, "close")
  {
    hide Heard;
    items := [Item([], "c", []), Item(" ", "close", [])];
    assert ItemText(items[0]) == "c" && ItemText(items[1]) == " close";
    assert items[1..] == [items[1]];
    assert ItemsText(items) == "c" + [','] + " close" == "c, close";
    SecondUnheard(items);
    assert |items[0].word| == 1;
  }

  lemma SecondUnheard(items: seq<Item>)
    requires |items| == 2 && items[0] == Item([], "c", [])
    ensures !Heard(items, 1)
  {
    assert Begins("c", Spelled(Close));
    assert Heard(items, 0) && Clipped(items[0]);
  }

  // ---- What is never heard ------------------------------------------------------------------------------

  predicate InRest(ch: Byte) { IsHeaderChar(ch) && ch != CR && ch != LF }

  lemma DeafNext(f: Fields, ch: Byte)
    requires f.hstate.General? && InRest(ch)
    ensures ValueNext(f, ch) == Good(f)
  {
    hide IsHeaderChar, Lower;
  }

  lemma DeafFirst(f: Fields, ch: Byte)
    requires f.hstate.MatchingConnectionTokenStart? && (ch == '\t' || ch == '_')
    ensures ValueNext(f, ch) == Good(f.(hstate := General))
  {
  }

  lemma {:induction false} DeafRest(max: nat, f: Fields, log: Log, s: ByteString)
    requires f.state.HeaderValue? && f.nread + |s| <= max && EndsIn(log, ValueData)
    requires f.hstate.General? && forall i :: 0 <= i < |s| ==> InRest(s[i])
    ensures Leads(max, f, log, s, f.(nread := f.nread + |s|), Append(log, ValueData, s))
    decreases |s|
  {
    hide Step, Append, ValueNext, Leads, IsHeaderChar;
    if s == [] {
      LeadsNothing(max, f, log);
      AppendNothing(log, ValueData);
    } else {
      var g, log1 := f.(nread := f.nread + 1), Append(log, ValueData, [s[0]]);
      assert InRest(s[0]);
      DeafNext(f, s[0]);
      ByteStep(max, f, log, s[0]);
      LeadsByte(max, f, log, s[0], g, log1);
      AppendEnds(log, ValueData, [s[0]]);
      DeafRest(max, g, log1, s[1..]);
      AppendTwice(log, ValueData, [s[0]], s[1..]);
      assert [s[0]] + s[1..] == s;
      LeadsThen(max, f, log, [s[0]], g, log1, s[1..], f.(nread := f.nread + |s|), Append(log, ValueData, s));
    }
  }

  // After a comma a tab, or a word that begins with an underscore, makes the parser ignore the
  // rest of the list: no byte of it sets a flag.
  lemma DeafRun(max: nat, f: Fields, log: Log, ch: Byte, s: ByteString)
    requires f.state.HeaderValue? && f.nread + 1 + |s| <= max && EndsIn(log, ValueData)
    requires f.hstate.MatchingConnectionTokenStart? && (ch == '\t' || ch == '_')
    requires forall i :: 0 <= i < |s| ==> InRest(s[i])
    ensures var g := f.(nread := f.nread + 1 + |s|, hstate := General);
      Leads(max, f, log, [ch] + s, g, Append(log, ValueData, [ch] + s)) && WithHeaderFlag(g).flags == f.flags
  {
    hide Step, Append, ValueNext, Leads, IsHeaderChar;
    var g, log1 := f.(nread := f.nread + 1, hstate := General), Append(log, ValueData, [ch]);
    DeafFirst(f, ch);
    ByteStep(max, f, log, ch);
    LeadsByte(max, f, log, ch, g, log1);
    AppendEnds(log, ValueData, [ch]);
    DeafRest(max, g, log1, s);
    AppendTwice(log, ValueData, [ch], s);
    LeadsThen(max, f, log, [ch], g, log1, s, g.(nread := g.nread + |s|), Append(log, ValueData, [ch] + s));
  }

  function TokenFlags(fl: Flags, items: seq<Item>): Flags {
    With(fl, Says(items, "keep-alive"), Says(items, "close"), Says(items, "upgrade"))
  }

  lemma NothingSaid(fl: Flags)
    ensures TokenFlags(fl, []) == fl
  {
  }

  // A list of tokens is reported as it stands, and sets the flags of the items that are heard
  // and no others; the last one counts once the line is over.
  lemma ItemsRun(max: nat, f: Fields, log: Log, items: seq<Item>) returns (g: Fields)
    requires f.state.HeaderValueDiscardWs? && f.hstate.Connection? && f.nread + |ItemsText(items)| <= max
    requires items != [] && ItemsOk(items)
    ensures Leads(max, f, log, ItemsText(items), g, Append(log, ValueData, ItemsText(items)))
    ensures WithValueFlag(g) == f.(state := HeaderValue, hstate := g.hstate, index := g.index,
                                   nread := f.nread + |ItemsText(items)|, flags := TokenFlags(f.flags, items))
    ensures g.state.HeaderValue? && !g.hstate.TransferEncodingChunked?
  {
    hide Append, Leads, Ended, WithValueFlag, FlagsOf, ItemOk, ItemText, ItemsText, MoreText, Says, With;
    FlagsSay(f.flags, items);
    ItemsMore(items);
    var t, m := ItemText(items[0]), MoreText(items);
    var h := FirstRun(max, f, log, items[0]);
    AppendEnds(log, ValueData, t);
    g := MoreRun(max, h, Append(log, ValueData, t), items, true);
    LeadsThen(max, f, log, t, h, Append(log, ValueData, t), m, g, Append(Append(log, ValueData, t), ValueData, m));
    AppendTwice(log, ValueData, t, m);
  }
}
