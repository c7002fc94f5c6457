// http_parser_execute as the source runs it: a position in the buffer, marks
// that remember where the data of a pending callback starts, and bulk loops over
// header names, header values and bodies. Every part is proved to do what the
// byte machine of HttpSpec does.
module HttpExecute {
  import opened Bytes
  import opened HttpTypes
  import opened HttpHop
  import opened HttpSpec

  // The five mark pointers: the kinds whose mark is set, and where each points.
  type Marks = map<DataKind, nat>

  // The locals of one call.
  datatype Cursor = Cursor(f: Fields, marks: Marks, p: nat, log: Log)

  // How examining a byte ends: the byte is consumed, it is examined again, the call
  // returns for an upgrade, or it fails.
  datatype Move = Advance | Retry | Leave | Error(err: Errno)

  // At most one mark is ever set; this is the one.
  datatype Pending = Nothing | Since(kind: DataKind, at: nat)

  ghost function AsMarks(c: Pending): Marks {
    if c.Nothing? then map[] else map[c.kind := c.at]
  }

  // The mark fits the state: it is the kind the state collects, or body data that
  // the state after the last byte of a chunk is about to report.
  ghost predicate Fits(s: State, c: Pending) {
    match c
    case Nothing => Open(s).None?
    case Since(k, _) => Open(s) == Some(k) || (k == BodyData && s == ChunkDataAlmostDone)
  }

  // The log that the byte machine has by now: the callbacks made so far and the
  // data held back by the mark.
  ghost function Seen(log: Log, c: Pending, data: ByteString, p: nat): Log
    requires p <= |data| && (c.Since? ==> c.at <= p)
  {
    if c.Nothing? then log else Append(log, c.kind, data[c.at..p])
  }

  ghost function Rest(max: nat, r: ByteResult, s: ByteString): RunResult {
    match r
    case Next(f, log) => Run(max, f, log, s)
    case Stop(f, log) => Stopped(f, log, |s|)
    case Error(e) => Failed(e, |s| + 1)
    case Crashed => RunCrashed
  }

  ghost predicate InRange(c: Pending, data: ByteString, p: nat) {
    p <= |data| && (c.Since? ==> c.at <= p)
  }

  // What is left to do in front of the byte at p, and while it is being examined.
  ghost function Top(max: nat, f: Fields, log: Log, c: Pending, data: ByteString, p: nat): RunResult
    requires InRange(c, data, p)
  {
    Run(max, f, Seen(log, c, data, p), data[p..])
  }

  ghost function At(max: nat, f: Fields, log: Log, c: Pending, data: ByteString, p: nat): RunResult
    requires InRange(c, data, p) && p < |data|
  {
    Rest(max, Chain(f, Seen(log, c, data, p), data[p]), data[p + 1..])
  }

  lemma TopStep(max: nat, f: Fields, log: Log, c: Pending, data: ByteString, p: nat)
    requires InRange(c, data, p) && p < |data|
    ensures Top(max, f, log, c, data, p)
         == if !ParsingHeader(f.state) then At(max, f, log, c, data, p)
            else if f.nread + 1 > max then Failed(HeaderOverflow, |data| - p)
            else At(max, f.(nread := f.nread + 1), log, c, data, p)
  {
    hide Chain;
    assert data[p..][0] == data[p] && data[p..][1..] == data[p + 1..];
  }

  // ---- One pass through the switch, on marks instead of bytes ----------------------

  ghost function PendingAfter(h: Hop, c: Pending, p: nat): Pending {
    if !h.flush.NoFlush? then Nothing else if h.mark.Some? then Since(h.mark.value, p) else c
  }

  ghost function ReportedAfter(h: Hop, log: Log, c: Pending, data: ByteString, p: nat): Log
    requires InRange(c, data, p) && p < |data|
  {
    var c' := if h.mark.Some? then Since(h.mark.value, p) else c;
    var l := if h.flush.NoFlush? || c'.Nothing? then log
             else Append(log, c'.kind, data[c'.at..if h.flush.FlushThrough? then p + 1 else p]);
    if h.note.Some? then Snoc(l, Notify(h.note.value)) else l
  }

  lemma SeenGrows(log: Log, c: Pending, data: ByteString, p: nat)
    requires InRange(c, data, p) && p < |data| && c.Since?
    ensures Append(Seen(log, c, data, p), c.kind, [data[p]]) == Seen(log, c, data, p + 1)
  {
    AppendTwice(log, c.kind, data[c.at..p], [data[p]]);
    assert data[c.at..p] + [data[p]] == data[c.at..p + 1];
  }

  lemma HopLogs(f: Fields, h: Hop, log: Log, c: Pending, data: ByteString, p: nat)
    requires InRange(c, data, p) && p < |data|
    requires Fits(f.state, c) && HopMarks(f, h) && !h.flow.Fail? && !h.flow.Abort?
    ensures Seen(ReportedAfter(h, log, c, data, p), PendingAfter(h, c, p), data, p)
         == LogAfter(h, Seen(log, c, data, p), data[p])
  {
    assert data[p..p] == [];
    if h.mark.Some? {
      AppendTwice(log, h.mark.value, [], [data[p]]);
      assert [] + [data[p]] == data[p..p + 1];
    } else if c.Since? {
      SeenGrows(log, c, data, p);
    }
  }

  lemma SwitchAt(max: nat, f: Fields, log: Log, c: Pending, data: ByteString, p: nat)
    requires InRange(c, data, p) && p < |data| && MidInv(max, f) && Fits(f.state, c)
    ensures var h := Switch(f, data[p]);
      var (c', log') := (PendingAfter(h, c, p), ReportedAfter(h, log, c, data, p));
      match h.flow
      case Done => && At(max, f, log, c, data, p) == Top(max, h.f, log', c', data, p + 1)
                   && Inv(max, h.f)
                   && (Fits(h.f.state, c') || (h.mark == Some(BodyData) && c' == Since(BodyData, p)))
      case Again => && At(max, f, log, c, data, p) == At(max, h.f, log', c', data, p)
                    && MidInv(max, h.f) && Rank(h.f.state) < Rank(f.state) && Fits(h.f.state, c')
                    && !h.f.state.HeaderValue?
      case Quit => && At(max, f, log, c, data, p) == Stopped(h.f, log', |data| - p - 1)
                   && Inv(max, h.f) && c'.Nothing? && Open(h.f.state).None?
      case Fail(e) => At(max, f, log, c, data, p) == Failed(e, |data| - p) && e != OK && e != HeaderOverflow
      case Abort => false
  {
    hide Switch, MidInv, Inv, Append, Run;
    var h := Switch(f, data[p]);
    SwitchKeeps(max, f, data[p]);
    if !h.flow.Fail? {
      HopLogs(f, h, log, c, data, p);
      var c', log' := PendingAfter(h, c, p), ReportedAfter(h, log, c, data, p);
      if h.flow.Done? && c'.Since? {
        SeenGrows(log', c', data, p);
      }
    }
  }

  // ---- Bodies: many bytes at once ----------------------------------------------------

  predicate InBody(f: Fields) {
    || (f.state.ChunkData? && f.flags.chunked && LengthLeft(f))
    || (f.state.BodyIdentity? && LengthLeft(f))
    || f.state.BodyIdentityEof?
  }

  // How many bytes of s a body state takes without leaving the body.
  ghost predicate Takes(f: Fields, n: nat) {
    && InBody(f) && 0 < n && f.contentLength < TWO_64
    && (f.state.ChunkData? ==> n <= f.contentLength) && (f.state.BodyIdentity? ==> n < f.contentLength)
  }

  ghost function AfterBody(f: Fields, n: nat): Fields
    requires Takes(f, n)
  {
    if f.state.BodyIdentityEof? then f
    else f.(contentLength := f.contentLength - n,
            state := if n == f.contentLength then ChunkDataAlmostDone else f.state)
  }

  lemma BodyByte(max: nat, f: Fields, log: Log, ch: Byte)
    requires Takes(f, 1)
    ensures Step(max, f, log, ch) == Next(AfterBody(f, 1), Append(log, BodyData, [ch]))
  {
    hide Switch, Append, Rank;
    BodySwitch(f, ch);
    AppendTwice(log, BodyData, [], [ch]);
    assert [] + [ch] == [ch];
  }

  lemma BodySwitch(f: Fields, ch: Byte)
    requires Takes(f, 1)
    ensures Switch(f, ch) == Hop(AfterBody(f, 1), Some(BodyData), NoFlush, None, Done)
  {
    hide ShouldKeepAlive, Unhex, ResponseHop, RequestHop, UrlHop, HeaderHop;
  }

  lemma {:induction false} BodyRun(max: nat, f: Fields, log: Log, s: ByteString, n: nat)
    requires Takes(f, n) && n <= |s|
    ensures Run(max, f, log, s) == Run(max, AfterBody(f, n), Append(log, BodyData, s[..n]), s[n..])
    decreases n
  {
    hide Step, Append;
    BodyByte(max, f, log, s[0]);
    var log' := Append(log, BodyData, [s[0]]);
    if n == 1 {
      assert s[..1] == [s[0]];
    } else {
      BodyRun(max, AfterBody(f, 1), log', s[1..], n - 1);
      AppendTwice(log, BodyData, [s[0]], s[1..][..n - 1]);
      assert [s[0]] + s[1..][..n - 1] == s[..n] && s[1..][n - 1..] == s[n..];
    }
  }

  lemma BodyTop(max: nat, f: Fields, log: Log, data: ByteString, p: nat, n: nat)
    requires Takes(f, n) && p + n <= |data|
    ensures At(max, f, log, Nothing, data, p) == Top(max, AfterBody(f, n), log, Since(BodyData, p), data, p + n)
  {
    hide Chain, Append, Run;
    TopStep(max, f, log, Nothing, data, p);
    BodyRun(max, f, log, data[p..], n);
    assert data[p..][..n] == data[p..p + n] && data[p..][n..] == data[p + n..];
  }

  // The last byte of a body of known length is reported and then examined again.
  lemma BodyLast(max: nat, f: Fields, log: Log, c: Pending, data: ByteString, p: nat, q: nat)
    requires f.state.BodyIdentity? && f.contentLength == 1
    requires p <= q < |data| && c == if p == q then Nothing else Since(BodyData, p)
    ensures At(max, f, log, c, data, q)
         == At(max, f.(contentLength := 0, state := MessageDone),
               Append(log, BodyData, data[p..q + 1]), Nothing, data, q)
  {
    hide Append, Run, ShouldKeepAlive, ResponseHop, RequestHop, UrlHop, HeaderHop, Unhex;
    var seen := Seen(log, c, data, q);
    AppendTwice(seen, BodyData, [], [data[q]]);
    assert [] + [data[q]] == [data[q]];
    if p == q {
      assert data[p..q + 1] == [data[q]];
    } else {
      SeenGrows(log, c, data, q);
    }
  }

  // ---- Header names and values: many bytes, counted at the end -------------------------

  // While a bulk loop that began at p0 (that byte counted in n0) stands at q: either
  // the count so far already forces an overflow, or the call goes on from q as the
  // byte machine would with that count.
  ghost predicate Sync(max: nat, total: RunResult, f: Fields, log: Log, c: Pending,
                       data: ByteString, n0: nat, p0: nat, q: nat)
    requires p0 <= q <= |data| && p0 < |data| && InRange(c, data, q)
  {
    var k := n0 + (if q < |data| then q - p0 else q - 1 - p0);
    if k > max then total.Failed? && total.err == HeaderOverflow
    else total == if q < |data| then At(max, f.(nread := k), log, c, data, q)
                  else Top(max, f.(nread := k), log, c, data, q)
  }

  // A byte that only changes the matcher.
  ghost predicate Quiet(f: Fields, ch: Byte, g: Fields) {
    forall k: nat :: Switch(f.(nread := k), ch) == Stay(g.(nread := k))
  }

  lemma SyncByte(max: nat, total: RunResult, f: Fields, log: Log, c: Pending,
                 data: ByteString, n0: nat, p0: nat, q: nat, g: Fields)
    requires p0 <= q < |data| && InRange(c, data, q) && c.Since? && Open(f.state) == Some(c.kind)
    requires ParsingHeader(g.state)
    requires Sync(max, total, f, log, c, data, n0, p0, q) && Quiet(f, data[q], g)
    ensures Sync(max, total, g, log, c, data, n0, p0, q + 1)
  {
    hide Switch, Append, Run, Rank;
    var k := n0 + (q - p0);
    if k <= max {
      SeenGrows(log, c, data, q);
      assert Switch(f.(nread := k), data[q]) == Stay(g.(nread := k));
      assert At(max, f.(nread := k), log, c, data, q) == Top(max, g.(nread := k), log, c, data, q + 1);
      if q + 1 < |data| {
        TopStep(max, g.(nread := k), log, c, data, q + 1);
      }
    }
  }

  // Once the count has gone over, the position no longer matters.
  lemma SyncOver(max: nat, total: RunResult, f: Fields, log: Log, c: Pending,
                 data: ByteString, n0: nat, p0: nat, q: nat, g: Fields)
    requires p0 <= q < |data| && InRange(c, data, q) && n0 + (q - p0) > max
    requires Sync(max, total, f, log, c, data, n0, p0, q)
    ensures Sync(max, total, g, log, c, data, n0, p0, q + 1)
  {
  }

  lemma FieldQuiet(f: Fields, ch: Byte)
    requires f.state.HeaderField? && Token(ch) != '\0' && FieldNext(f.hstate, f.index, Token(ch)).Some?
    ensures var (h, i) := FieldNext(f.hstate, f.index, Token(ch)).value;
      Quiet(f, ch, f.(hstate := h, index := i))
  {
    hide Token, FieldNext;
  }

  lemma ValueQuiet(f: Fields, ch: Byte)
    requires f.state.HeaderValue? && ch != CR && ch != LF && ValueNext(f, ch).Good?
    ensures Quiet(f, ch, ValueNext(f, ch).f)
  {
    hide ValueNext;
    forall k: nat ensures Switch(f.(nread := k), ch) == Stay(ValueNext(f, ch).f.(nread := k)) {
      ValueNextIgnoresCount(f, ch, k);
    }
  }

  lemma ValueNextIgnoresCount(f: Fields, ch: Byte, k: nat)
    ensures ValueNext(f.(nread := k), ch)
         == match ValueNext(f, ch) case Good(g) => Good(g.(nread := k)) case r => r
  {
    hide IsHeaderChar, ValueMatch, AddDigit, AfterToken;
    DigitIgnoresCount(f, ch, k);
    TokenIgnoresCount(f, ch, k);
  }

  lemma DigitIgnoresCount(f: Fields, ch: Byte, k: nat)
    ensures AddDigit(f.(nread := k), ch)
         == match AddDigit(f, ch) case Good(g) => Good(g.(nread := k)) case r => r
  {
  }

  lemma TokenIgnoresCount(f: Fields, ch: Byte, k: nat)
    ensures AfterToken(f.(nread := k), ch)
         == match AfterToken(f, ch) case Good(g) => Good(g.(nread := k)) case r => r
  {
  }
}
