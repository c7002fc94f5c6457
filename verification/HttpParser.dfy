// struct http_parser and http_parser_execute. The parser's members are held as
// one record; the recording callbacks append to log.
module HttpParser {
  import opened Bytes
  import opened HttpTypes
  import opened HttpHop
  import opened HttpSpec
  import opened HttpExecute
  import opened UrlChars

  function Min(a: nat, b: nat): nat { if a <= b then a else b }

  // nread += (uint32_t) v, in 32 bits.
  function Count(nread: nat, v: nat): nat { (nread + v % TWO_32) % TWO_32 }

  // ---- Marks and callbacks ------------------------------------------------------------

  function Mark(marks: Marks, k: DataKind, p: nat): Marks {
    if k in marks then marks else marks[k := p]
  }

  // The data callback for kind k with the bytes up to end; nothing without a mark.
  method Callback(marks: Marks, log: Log, k: DataKind, data: ByteString, end: nat, ghost c: Pending)
    returns (marks': Marks, log': Log)
    requires marks == AsMarks(c) && InRange(c, data, end)
    ensures if c.Since? && c.kind == k then marks' == AsMarks(Nothing) && log' == Seen(log, c, data, end)
            else marks' == AsMarks(c) && log' == log
  {
    log' := log;
    if k in marks {
      log' := Append(log, k, data[marks[k]..end]);
    }
    marks' := marks - {k};
  }

  // ---- The contract of examining one byte ----------------------------------------------

  ghost predicate CursorOk(max: nat, cur: Cursor, c: Pending, data: ByteString) {
    && cur.p < |data| && InRange(c, data, cur.p) && cur.marks == AsMarks(c)
    && MidInv(max, cur.f) && Fits(cur.f.state, c) && (cur.f.state.HeaderValue? ==> cur.f.nread >= 1)
  }

  ghost predicate Moved(max: nat, total: RunResult, from: Cursor, data: ByteString,
                        m: Move, to: Cursor, c: Pending) {
    match m
    case Advance => && from.p < to.p && InRange(c, data, to.p) && to.marks == AsMarks(c) && Inv(max, to.f)
                    && (to.p < |data| ==> Fits(to.f.state, c))
                    && total == Top(max, to.f, to.log, c, data, to.p)
    case Retry => && from.p <= to.p && CursorOk(max, to, c, data) && Rank(to.f.state) < Rank(from.f.state)
                  && total == At(max, to.f, to.log, c, data, to.p)
    case Leave => && from.p < to.p <= |data| && Inv(max, to.f) && Open(to.f.state).None?
                  && total == Stopped(to.f, to.log, |data| - to.p)
    case Error(e) => && e != OK && to.p <= |data| && total.Failed?
                     && (total.err != HeaderOverflow ==> e == total.err && to.p == |data| - total.left)
  }

  ghost function Total(max: nat, cur: Cursor, c: Pending, data: ByteString): RunResult
    requires InRange(c, data, cur.p) && cur.p < |data|
  {
    At(max, cur.f, cur.log, c, data, cur.p)
  }

  // ---- One pass through the switch ------------------------------------------------------

  predicate BulkState(s: State) {
    s.HeaderField? || s.HeaderValue? || s.ChunkData? || s.BodyIdentity? || s.BodyIdentityEof?
  }

  method ApplyHop(h: Hop, cur: Cursor, data: ByteString, ghost c: Pending) returns (marks: Marks, log: Log)
    requires cur.p < |data| && InRange(c, data, cur.p) && cur.marks == AsMarks(c)
    requires HopMarks(cur.f, h) && Fits(cur.f.state, c) && !h.flow.Fail? && !h.flow.Abort?
    ensures marks == AsMarks(PendingAfter(h, c, cur.p))
    ensures log == ReportedAfter(h, cur.log, c, data, cur.p)
  {
    marks, log := cur.marks, cur.log;
    if h.mark.Some? {
      marks := Mark(marks, h.mark.value, cur.p);
    }
    if !h.flush.NoFlush? {
      marks, log := Callback(marks, log, h.flush.kind, data, if h.flush.FlushThrough? then cur.p + 1 else cur.p,
                             if h.mark.Some? then Since(h.mark.value, cur.p) else c);
    }
    if h.note.Some? {
      log := Snoc(log, Notify(h.note.value));
    }
  }

  method Pass(max: nat, cur: Cursor, data: ByteString, ghost c: Pending)
    returns (m: Move, to: Cursor, ghost c': Pending)
    requires CursorOk(max, cur, c, data) && !BulkState(cur.f.state)
    ensures Moved(max, Total(max, cur, c, data), cur, data, m, to, c')
  {
    hide At, Top, Switch, ShouldKeepAlive, Run, Chain, HopMarks, Append, Seen;
    var h := Switch(cur.f, data[cur.p]);
    SwitchAt(max, cur.f, cur.log, c, data, cur.p);
    SwitchKeeps(max, cur.f, data[cur.p]);
    c' := PendingAfter(h, c, cur.p);
    if h.flow.Fail? {
      return Move.Error(h.flow.err), cur, c;
    }
    var marks, log := ApplyHop(h, cur, data, c);
    NoBodyMark(cur.f, data[cur.p]);
    match h.flow
    case Done => m, to := Advance, Cursor(h.f, marks, cur.p + 1, log);
    case Again => m, to := Retry, Cursor(h.f, marks, cur.p, log);
    case Quit => m, to := Leave, Cursor(h.f, marks, cur.p + 1, log);
  }

  lemma NoBodyMark(f: Fields, ch: Byte)
    requires !BulkState(f.state)
    ensures Switch(f, ch).mark != Some(BodyData)
  {
    hide ShouldKeepAlive, ParseUrlChar, MethodName, NextCandidate, FieldHop, ValueHop, Token, Unhex;
  }

  // ---- Bodies ---------------------------------------------------------------------------

  method BodyPass(max: nat, cur: Cursor, data: ByteString, ghost c: Pending)
    returns (m: Move, to: Cursor, ghost c': Pending)
    requires CursorOk(max, cur, c, data)
    requires cur.f.state.ChunkData? || cur.f.state.BodyIdentity? || cur.f.state.BodyIdentityEof?
    ensures Moved(max, Total(max, cur, c, data), cur, data, m, to, c')
  {
    hide At, Top, Sane, Seen, Rank, AsMarks, ParsingHeader;
    var f, p := cur.f, cur.p;
    BodySane(f);
    MarkSets(BodyData, p);
    var marks := Mark(cur.marks, BodyData, p);
    c' := Since(BodyData, p);
    if f.state.BodyIdentityEof? {
      BodyTop(max, f, cur.log, data, p, |data| - p);
      return Advance, Cursor(f, marks, |data|, cur.log), c';
    }
    var toRead := Min(f.contentLength, |data| - p);
    f := f.(contentLength := f.contentLength - toRead);
    p := p + (toRead - 1);
    if f.contentLength != 0 || f.state.ChunkData? {
      BodyTop(max, cur.f, cur.log, data, cur.p, toRead);
      if f.contentLength == 0 {
        f := f.(state := ChunkDataAlmostDone);
      }
      return Advance, Cursor(f, marks, p + 1, cur.log), c';
    }
    to := LastBytes(max, cur, data, c, marks);
    return Retry, to, Nothing;
  }

  // The last bytes of a body of known length are reported, and the last one of them is
  // examined again.
  method LastBytes(max: nat, cur: Cursor, data: ByteString, ghost c: Pending, marks: Marks) returns (to: Cursor)
    requires CursorOk(max, cur, c, data) && cur.f.state.BodyIdentity? && cur.f.contentLength <= |data| - cur.p
    requires marks == AsMarks(Since(BodyData, cur.p))
    ensures Moved(max, Total(max, cur, c, data), cur, data, Retry, to, Nothing)
  {
    hide At, Top, Sane, Seen, Rank, AsMarks, ParsingHeader;
    BodySane(cur.f);
    MarkSets(BodyData, cur.p);
    IdentityEnd(max, cur, c, data);
    var p := cur.p + (cur.f.contentLength - 1);
    var marks', log := Callback(marks, cur.log, BodyData, data, p + 1, Since(BodyData, cur.p));
    to := Cursor(cur.f.(contentLength := 0, state := MessageDone), marks', p, log);
  }

  lemma MarkSets(k: DataKind, p: nat)
    ensures Mark(AsMarks(Nothing), k, p) == AsMarks(Since(k, p))
    ensures Rank(MessageDone) < Rank(BodyIdentity)
  {
  }

  lemma BodySane(f: Fields)
    requires Sane(f) && (f.state.ChunkData? || f.state.BodyIdentity? || f.state.BodyIdentityEof?)
    ensures InBody(f) && f.contentLength < TWO_64
    ensures forall n | Takes(f, n) :: Sane(AfterBody(f, n))
    ensures f.state.BodyIdentity? ==> Sane(f.(contentLength := 0, state := MessageDone))
  {
    hide MethodName, FieldStateOk, ValueStateOk;
  }

  // A body of known length whose last byte is in the buffer.
  lemma IdentityEnd(max: nat, cur: Cursor, c: Pending, data: ByteString)
    requires CursorOk(max, cur, c, data) && cur.f.state.BodyIdentity?
    requires cur.f.contentLength <= |data| - cur.p
    ensures var end := cur.p + cur.f.contentLength;
      Total(max, cur, c, data)
      == At(max, cur.f.(contentLength := 0, state := MessageDone),
            Seen(cur.log, Since(BodyData, cur.p), data, end), Nothing, data, end - 1)
  {
    hide MethodName, FieldStateOk, ValueStateOk, At, Top, Run, Chain, Append;
    var f, p, n := cur.f, cur.p, cur.f.contentLength;
    if n > 1 {
      var g := AfterBody(f, n - 1);
      BodyTop(max, f, cur.log, data, p, n - 1);
      TopStep(max, g, cur.log, Since(BodyData, p), data, p + n - 1);
      BodyLast(max, g, cur.log, Since(BodyData, p), data, p, p + n - 1);
    } else {
      BodyLast(max, f, cur.log, Nothing, data, p, p);
    }
  }

  // ---- Header names ------------------------------------------------------------------------

  method FieldScan(max: nat, cur: Cursor, data: ByteString, ghost c: Pending) returns (f: Fields, p: nat)
    requires CursorOk(max, cur, c, data) && cur.f.state.HeaderField?
    ensures cur.p <= p <= |data| && (p < |data| ==> Token(data[p]) == '\0')
    ensures f.state.HeaderField? && f.nread == cur.f.nread && Sane(f)
    ensures Sync(max, Total(max, cur, c, data), f, cur.log, c, data, cur.f.nread, cur.p, p)
  {
    hide At, Top, Run, Chain, Append, Seen, Token, FieldNext, Quiet, Switch;
    f, p := cur.f, cur.p;
    ghost var n0, total := f.nread, Total(max, cur, c, data);
    assert f.(nread := n0) == f;
    while p < |data|
      invariant cur.p <= p <= |data|
      invariant f.state.HeaderField? && f.nread == n0 && Sane(f)
      invariant Sync(max, total, f, cur.log, c, data, n0, cur.p, p)
    {
      var t := Token(data[p]);
      if t == '\0' {
        break;
      }
      if f.hstate.General? {
        p := SkipName(max, total, f, cur, data, c, p);
      } else {
        FieldNextKeeps(f.hstate, f.index, t);
        var (h, i) := FieldNext(f.hstate, f.index, t).value;
        FieldQuiet(f, data[p]);
        var g := f.(hstate := h, index := i);
        SyncByte(max, total, f, cur.log, c, data, n0, cur.p, p, g);
        f := g;
      }
      p := p + 1;
    }
  }

  lemma FieldNextKeeps(h: HeaderState, i: nat, c: Byte)
    requires FieldStateOk(h, i)
    ensures var r := FieldNext(h, i, c); r.Some? && FieldStateOk(r.value.0, r.value.1) && r.value.1 <= 17
    ensures h.General? ==> FieldNext(h, i, c) == Some((h, i))
  {
    hide Token, Matched, CONNECTION, PROXY_CONNECTION, CONTENT_LENGTH, TRANSFER_ENCODING, UPGRADE;
    WordLengths();
  }

  // The inner loop for a name that is no longer of interest: it ends on the last
  // token byte in reach.
  method SkipName(max: nat, ghost total: RunResult, f: Fields, cur: Cursor, data: ByteString,
                  ghost c: Pending, from: nat) returns (p: nat)
    requires CursorOk(max, cur, c, data) && cur.p <= from < |data|
    requires cur.f.state.HeaderField? && f.state.HeaderField? && f.hstate.General? && Sane(f)
    requires Token(data[from]) != '\0'
    requires Sync(max, total, f, cur.log, c, data, cur.f.nread, cur.p, from)
    ensures from <= p < |data|
    ensures Sync(max, total, f, cur.log, c, data, cur.f.nread, cur.p, p + 1)
  {
    hide At, Top, Run, Chain, Append, Seen, Token, FieldNext, Quiet, Switch;
    p := from;
    var pe := p + Min(|data| - p, max);
    NameByte(max, total, f, cur, data, c, p);
    while p + 1 < pe && Token(data[p + 1]) != '\0'
      invariant from <= p < |data|
      invariant Sync(max, total, f, cur.log, c, data, cur.f.nread, cur.p, p + 1)
    {
      p := p + 1;
      NameByte(max, total, f, cur, data, c, p);
    }
  }

  lemma NameByte(max: nat, total: RunResult, f: Fields, cur: Cursor, data: ByteString, c: Pending, p: nat)
    requires CursorOk(max, cur, c, data) && cur.p <= p < |data|
    requires cur.f.state.HeaderField? && f.state.HeaderField? && f.hstate.General? && Sane(f)
    requires Token(data[p]) != '\0'
    requires Sync(max, total, f, cur.log, c, data, cur.f.nread, cur.p, p)
    ensures Sync(max, total, f, cur.log, c, data, cur.f.nread, cur.p, p + 1)
  {
    hide At, Top, Run, Chain, Append, Seen, Token, FieldNext, Quiet, Switch;
    FieldNextKeeps(f.hstate, f.index, Token(data[p]));
    FieldQuiet(f, data[p]);
    assert f.(hstate := f.hstate, index := f.index) == f;
    SyncByte(max, total, f, cur.log, c, data, cur.f.nread, cur.p, p, f);
  }

  method FieldPass(max: nat, cur: Cursor, data: ByteString, ghost c: Pending)
    returns (m: Move, to: Cursor, ghost c': Pending)
    requires CursorOk(max, cur, c, data) && cur.f.state.HeaderField? && |data| + max < TWO_32
    ensures Moved(max, Total(max, cur, c, data), cur, data, m, to, c')
  {
    hide At, Top, Sane, Seen, AsMarks, Rank, Token, Switch, StateOk;
    var f, p := FieldScan(max, cur, data, c);
    if p == |data| {
      m, to := NameRunsOut(max, cur, data, c, f);
      return m, to, c;
    }
    SaneIgnoresCount(f, Count(f.nread, p - cur.p));
    f := f.(nread := Count(f.nread, p - cur.p));
    to := Cursor(f, cur.marks, p, cur.log);
    if f.nread > max {
      return Move.Error(HeaderOverflow), to, c;
    }
    NameEndAt(max, f, cur.log, c, data, p);
    if data[p] == ':' {
      var marks, log := Callback(cur.marks, cur.log, FieldData, data, p, c);
      return Advance, Cursor(f.(state := HeaderValueDiscardWs), marks, p + 1, log), Nothing;
    }
    return Move.Error(InvalidHeaderToken), to, c;
  }

  // The buffer ends inside the name.
  method NameRunsOut(max: nat, cur: Cursor, data: ByteString, ghost c: Pending, f0: Fields)
    returns (m: Move, to: Cursor)
    requires CursorOk(max, cur, c, data) && cur.f.state.HeaderField? && |data| + max < TWO_32
    requires f0.state.HeaderField? && f0.nread == cur.f.nread && Sane(f0)
    requires Sync(max, Total(max, cur, c, data), f0, cur.log, c, data, cur.f.nread, cur.p, |data|)
    ensures Moved(max, Total(max, cur, c, data), cur, data, m, to, c)
  {
    hide At, Top, Sane, Seen, AsMarks, Rank, Switch, StateOk;
    var p := |data| - 1;
    SaneIgnoresCount(f0, Count(f0.nread, p - cur.p));
    var f := f0.(nread := Count(f0.nread, p - cur.p));
    to := Cursor(f, cur.marks, p, cur.log);
    if f.nread > max {
      return Move.Error(HeaderOverflow), to;
    }
    return Advance, to.(p := p + 1);
  }

  lemma NameEndAt(max: nat, f: Fields, log: Log, c: Pending, data: ByteString, p: nat)
    requires InRange(c, data, p) && p < |data| && MidInv(max, f) && Fits(f.state, c)
    requires f.state.HeaderField? && Token(data[p]) == '\0'
    ensures At(max, f, log, c, data, p)
         == if data[p] == ':' then
              Top(max, f.(state := HeaderValueDiscardWs), Seen(log, c, data, p), Nothing, data, p + 1)
            else Failed(InvalidHeaderToken, |data| - p)
    ensures c.Since? && c.kind == FieldData && Inv(max, f.(state := HeaderValueDiscardWs))
  {
    hide At, Top, Run, Chain, Append, Token, Switch, Sane;
    SwitchAt(max, f, log, c, data, p);
    NameEnd(f, data[p]);
    SaneElsewhere(f);
  }

  lemma SaneElsewhere(f: Fields)
    requires Sane(f)
    ensures Sane(f.(state := HeaderValueDiscardWs)) && Sane(f.(state := HeaderAlmostDone))
  {
    hide MethodName, FieldStateOk, ValueStateOk;
  }

  lemma NameEnd(f: Fields, ch: Byte)
    requires f.state.HeaderField? && Token(ch) == '\0'
    ensures Switch(f, ch)
         == if ch == ':' then Hop(f.(state := HeaderValueDiscardWs), None, Flush(FieldData), None, Done)
                             else Err(f, InvalidHeaderToken)
  {
    hide Token;
  }

  lemma SaneIgnoresCount(f: Fields, k: nat)
    ensures Sane(f.(nread := k)) == Sane(f)
  {
    hide MethodName, FieldStateOk, ValueStateOk;
  }

  // ---- Header values -----------------------------------------------------------------------

  datatype ScanEnd = AtEnd | AtCR | AtLF | Refused(err: Errno)

  // Where the loop over a value stands: at the end, at CR or LF, or at a byte it
  // refuses.
  ghost predicate ScanStands(total: RunResult, data: ByteString, end: ScanEnd, p: nat) {
    match end
    case AtEnd => p == |data|
    case AtCR => p < |data| && data[p] == CR
    case AtLF => p < |data| && data[p] == LF
    case Refused(e) => && p < |data| && e != OK && total.Failed?
                       && (total.err != HeaderOverflow ==> e == total.err && p == |data| - total.left)
  }

  ghost predicate ValueScanOk(max: nat, total: RunResult, f: Fields, cur: Cursor, data: ByteString, c: Pending, p: nat)
    requires CursorOk(max, cur, c, data)
  {
    && cur.p <= p <= |data|
    && f.state.HeaderValue? && f.nread == cur.f.nread && Sane(f)
    && Sync(max, total, f, cur.log, c, data, cur.f.nread, cur.p, p)
  }

  method ValueScan(max: nat, cur: Cursor, data: ByteString, ghost c: Pending)
    returns (f: Fields, p: nat, end: ScanEnd)
    requires CursorOk(max, cur, c, data) && cur.f.state.HeaderValue?
    ensures ValueScanOk(max, Total(max, cur, c, data), f, cur, data, c, p)
    ensures ScanStands(Total(max, cur, c, data), data, end, p)
  {
    hide At, Top, Switch, Sync, Sane, ValueNext, IsHeaderChar;
    f, p, end := cur.f, cur.p, AtEnd;
    ghost var total := Total(max, cur, c, data);
    SyncStart(max, cur, c, data);
    while p < |data|
      invariant ValueScanOk(max, total, f, cur, data, c, p) && end.AtEnd?
    {
      var ch := data[p];
      if ch == CR {
        return f, p, AtCR;
      }
      if ch == LF {
        return f, p, AtLF;
      }
      if f.hstate.General? {
        ValueByte(max, total, f, cur, data, c, p);
        if !f.lenient && !IsHeaderChar(ch) {
          HeaderCharRefused(f, ch);
          return f, p, Refused(InvalidHeaderToken);
        }
        p, end := SkipValue(max, total, f, cur, data, c, p);
        if end.Refused? {
          return;
        }
      } else {
        ValueByte(max, total, f, cur, data, c, p);
        match ValueNext(f, ch)
        case Bad(e) => return f, p, Refused(e);
        case Good(g) => f := g;
        case Asserted => assert false;
      }
      p := p + 1;
    }
  }

  lemma HeaderCharRefused(f: Fields, ch: Byte)
    requires !f.lenient && !IsHeaderChar(ch)
    ensures ValueNext(f, ch) == Bad(InvalidHeaderToken)
  {
  }

  lemma SyncStart(max: nat, cur: Cursor, c: Pending, data: ByteString)
    requires CursorOk(max, cur, c, data)
    ensures Sync(max, Total(max, cur, c, data), cur.f, cur.log, c, data, cur.f.nread, cur.p, cur.p)
  {
    hide At, Top;
    assert cur.f.(nread := cur.f.nread) == cur.f;
  }

  // One byte of a value: taken by the matcher, or refused where the byte machine
  // fails.
  lemma ValueByte(max: nat, total: RunResult, f: Fields, cur: Cursor, data: ByteString, c: Pending, p: nat)
    requires CursorOk(max, cur, c, data) && cur.f.state.HeaderValue?
    requires ValueScanOk(max, total, f, cur, data, c, p) && p < |data| && data[p] != CR && data[p] != LF
    ensures match ValueNext(f, data[p])
      case Good(g) => ValueScanOk(max, total, g, cur, data, c, p + 1)
      case Bad(e) => ScanStands(total, data, Refused(e), p)
      case Asserted => false
  {
    hide Top, Append, Run, Switch, ValueNext, ValueStateOk, MethodName, Seen;
    ValueNextKeeps(f, data[p]);
    match ValueNext(f, data[p])
    case Good(g) =>
      hide At;
      ValueQuiet(f, data[p]);
      SyncByte(max, total, f, cur.log, c, data, cur.f.nread, cur.p, p, g);
    case Bad(e) =>
      var k := cur.f.nread + (p - cur.p);
      ValueRefused(f, data[p], k);
    case _ =>
  }

  lemma ValueRefused(f: Fields, ch: Byte, k: nat)
    requires f.state.HeaderValue? && ch != CR && ch != LF && ValueNext(f, ch).Bad?
    ensures Switch(f.(nread := k), ch).flow == Fail(ValueNext(f, ch).err)
  {
    hide ValueNext;
    ValueNextIgnoresCount(f, ch, k);
  }

  // The inner loop over a value that is no longer of interest. It ends on the byte
  // before a CR or LF, on the last byte of the buffer, or on the byte after
  // max bytes, which it then never looks at.
  method SkipValue(max: nat, ghost total: RunResult, f: Fields, cur: Cursor, data: ByteString,
                   ghost c: Pending, from: nat) returns (p: nat, end: ScanEnd)
    requires CursorOk(max, cur, c, data) && cur.f.state.HeaderValue?
    requires ValueScanOk(max, total, f, cur, data, c, from) && f.hstate.General? && from < |data|
    requires data[from] != CR && data[from] != LF && (f.lenient || IsHeaderChar(data[from]))
    ensures end.AtEnd? || end.Refused?
    ensures end.Refused? ==> ScanStands(total, data, end, p) && ValueScanOk(max, total, f, cur, data, c, p)
    ensures end.AtEnd? ==> from <= p < |data| && ValueScanOk(max, total, f, cur, data, c, p + 1)
  {
    hide At, Top, Switch, Sync, Sane, ValueNext, IsHeaderChar;
    p := from;
    var pe := p + Min(|data| - p, max);
    while p != pe
      invariant from <= p <= pe && ValueScanOk(max, total, f, cur, data, c, p)
    {
      var ch := data[p];
      if ch == CR || ch == LF {
        return p - 1, AtEnd;
      }
      ValueByte(max, total, f, cur, data, c, p);
      GeneralStays(f, ch);
      if !f.lenient && !IsHeaderChar(ch) {
        return p, Refused(InvalidHeaderToken);
      }
      p := p + 1;
    }
    if p == |data| {
      return p - 1, AtEnd;
    }
    SyncOver(max, total, f, cur.log, c, data, cur.f.nread, cur.p, p, f);
    return p, AtEnd;
  }

  lemma GeneralStays(f: Fields, ch: Byte)
    requires f.hstate.General?
    ensures ValueNext(f, ch) == if !f.lenient && !IsHeaderChar(ch) then Bad(InvalidHeaderToken) else Good(f)
  {
  }

  lemma ValueEndAt(max: nat, f: Fields, log: Log, c: Pending, data: ByteString, p: nat)
    requires InRange(c, data, p) && p < |data| && MidInv(max, f) && Fits(f.state, c)
    requires f.state.HeaderValue? && (data[p] == CR || data[p] == LF)
    ensures c.Since? && c.kind == ValueData && Rank(HeaderAlmostDone) < Rank(HeaderValue)
    ensures var (g, log') := (f.(state := HeaderAlmostDone), Seen(log, c, data, p));
      && Inv(max, g) && MidInv(max, g)
      && At(max, f, log, c, data, p)
         == if data[p] == CR then Top(max, g, log', Nothing, data, p + 1) else At(max, g, log', Nothing, data, p)
  {
    hide At, Top, Append, Switch, Sane;
    SwitchAt(max, f, log, c, data, p);
    ValueEnd(f, data[p]);
    SaneElsewhere(f);
  }

  lemma ValueEnd(f: Fields, ch: Byte)
    requires f.state.HeaderValue? && (ch == CR || ch == LF)
    ensures Switch(f, ch) == Hop(f.(state := HeaderAlmostDone), None, Flush(ValueData), None,
                                 if ch == CR then Done else Again)
  {
  }

  method ValuePass(max: nat, cur: Cursor, data: ByteString, ghost c: Pending)
    returns (m: Move, to: Cursor, ghost c': Pending)
    requires CursorOk(max, cur, c, data) && cur.f.state.HeaderValue? && |data| + max < TWO_32
    ensures Moved(max, Total(max, cur, c, data), cur, data, m, to, c')
  {
    hide At, Top, Sane;
    var f, p, end := ValueScan(max, cur, data, c);
    if end.Refused? {
      return Move.Error(end.err), Cursor(f, cur.marks, p, cur.log), c;
    }
    if p == |data| {
      p := p - 1;
      SaneIgnoresCount(f, Count(f.nread, p - cur.p));
      f := f.(nread := Count(f.nread, p - cur.p));
      to := Cursor(f, cur.marks, p, cur.log);
      if f.nread > max {
        return Move.Error(HeaderOverflow), to, c;
      }
      return Advance, to.(p := p + 1), c;
    }
    m, to := ValueFinish(max, cur, data, c, f, p);
    c' := Nothing;
  }

  // CR reports the value before the bytes are counted, LF after.
  method ValueFinish(max: nat, cur: Cursor, data: ByteString, ghost c: Pending, f0: Fields, p: nat)
    returns (m: Move, to: Cursor)
    requires CursorOk(max, cur, c, data) && cur.f.state.HeaderValue? && |data| + max < TWO_32
    requires ValueScanOk(max, Total(max, cur, c, data), f0, cur, data, c, p)
    requires p < |data| && (data[p] == CR || data[p] == LF)
    ensures Moved(max, Total(max, cur, c, data), cur, data, m, to, Nothing)
  {
    hide At, Top, Sane, Seen, AsMarks, Rank;
    var f := f0.(nread := Count(f0.nread, p - cur.p));
    SaneIgnoresCount(f0, f.nread);
    var marks, log := cur.marks, cur.log;
    if data[p] == CR {
      marks, log := Callback(marks, log, ValueData, data, p, c);
    }
    to := Cursor(f, marks, p, log);
    if f.nread > max {
      return Move.Error(HeaderOverflow), to;
    }
    ValueEndAt(max, f, cur.log, c, data, p);
    f := f.(state := HeaderAlmostDone);
    if data[p] == LF {
      marks, log := Callback(marks, log, ValueData, data, p, c);
      return Retry, Cursor(f, marks, p, log);
    }
    return Advance, Cursor(f, marks, p + 1, log);
  }

  // ---- The byte loop -------------------------------------------------------------------------

  method Examine(max: nat, cur: Cursor, data: ByteString, ghost c: Pending)
    returns (m: Move, to: Cursor, ghost c': Pending)
    requires CursorOk(max, cur, c, data) && |data| + max < TWO_32
    ensures Moved(max, Total(max, cur, c, data), cur, data, m, to, c')
  {
    hide Moved, Total, CursorOk;
    if cur.f.state.HeaderField? {
      m, to, c' := FieldPass(max, cur, data, c);
    } else if cur.f.state.HeaderValue? {
      m, to, c' := ValuePass(max, cur, data, c);
    } else if cur.f.state.ChunkData? || cur.f.state.BodyIdentity? || cur.f.state.BodyIdentityEof? {
      m, to, c' := BodyPass(max, cur, data, c);
    } else {
      m, to, c' := Pass(max, cur, data, c);
    }
  }

  // The label reexecute.
  method Reexecute(max: nat, cur: Cursor, data: ByteString, ghost c: Pending)
    returns (m: Move, to: Cursor, ghost c': Pending)
    requires CursorOk(max, cur, c, data) && |data| + max < TWO_32
    ensures Moved(max, Total(max, cur, c, data), cur, data, m, to, c') && !m.Retry?
  {
    hide At, Top, Inv, MidInv, Fits;
    m, to, c' := Examine(max, cur, data, c);
    while m.Retry?
      invariant Moved(max, Total(max, cur, c, data), cur, data, m, to, c')
      decreases if m.Retry? then Rank(to.f.state) + 1 else 0
    {
      m, to, c' := Examine(max, to, data, c');
    }
  }

  // The callbacks for marks left over when the bytes run out, in the source's order.
  method Leftovers(marks0: Marks, log0: Log, data: ByteString, ghost c: Pending) returns (log: Log)
    requires marks0 == AsMarks(c) && InRange(c, data, |data|)
    ensures log == Seen(log0, c, data, |data|)
  {
    assert |marks0| <= 1;
    var marks := marks0;
    log := log0;
    ghost var c' := c;
    marks, log := Callback(marks, log, FieldData, data, |data|, c);
    c' := if c.Since? && c.kind == FieldData then Nothing else c';
    marks, log := Callback(marks, log, ValueData, data, |data|, c');
    c' := if c.Since? && c.kind == ValueData then Nothing else c';
    marks, log := Callback(marks, log, UrlData, data, |data|, c');
    c' := if c.Since? && c.kind == UrlData then Nothing else c';
    marks, log := Callback(marks, log, BodyData, data, |data|, c');
    c' := if c.Since? && c.kind == BodyData then Nothing else c';
    marks, log := Callback(marks, log, StatusData, data, |data|, c');
  }

  lemma Enter(max: nat, cur: Cursor, c: Pending, data: ByteString)
    requires cur.p < |data| && InRange(c, data, cur.p) && cur.marks == AsMarks(c)
    requires Inv(max, cur.f) && Fits(cur.f.state, c)
    ensures var f := if ParsingHeader(cur.f.state) then cur.f.(nread := Count(cur.f.nread, 1)) else cur.f;
      var top := Top(max, cur.f, cur.log, c, data, cur.p);
      max + |data| < TWO_32 ==>
        if f.nread > max then top == Failed(HeaderOverflow, |data| - cur.p)
        else CursorOk(max, cur.(f := f), c, data) && top == Total(max, cur.(f := f), c, data)
  {
    hide At, Top, Sane;
    TopStep(max, cur.f, cur.log, c, data, cur.p);
    SaneIgnoresCount(cur.f, Count(cur.f.nread, 1));
  }

  method ByteLoop(max: nat, data: ByteString, start: Cursor, ghost c0: Pending)
    returns (m: Move, cur: Cursor, ghost c: Pending)
    requires data != [] && |data| + max < TWO_32
    requires start.p == 0 && InRange(c0, data, 0) && start.marks == AsMarks(c0)
    requires Inv(max, start.f) && Fits(start.f.state, c0)
    ensures Moved(max, Top(max, start.f, start.log, c0, data, 0), start, data, m, cur, c)
    ensures !m.Retry? && (m.Advance? ==> cur.p == |data|)
  {
    hide At, Top, Inv, MidInv, Fits, AsMarks;
    ghost var total := Top(max, start.f, start.log, c0, data, 0);
    m, cur, c := Advance, start, c0;
    while cur.p < |data|
      invariant cur.p <= |data| && InRange(c, data, cur.p) && cur.marks == AsMarks(c) && Inv(max, cur.f)
      invariant cur.p < |data| ==> Fits(cur.f.state, c)
      invariant m.Advance? && total == Top(max, cur.f, cur.log, c, data, cur.p)
      decreases |data| - cur.p
    {
      Enter(max, cur, c, data);
      if ParsingHeader(cur.f.state) {
        cur := cur.(f := cur.f.(nread := Count(cur.f.nread, 1)));
      }
      if cur.f.nread > max {
        return Move.Error(HeaderOverflow), cur, c;
      }
      m, cur, c := Reexecute(max, cur, data, c);
      if !m.Advance? {
        return;
      }
    }
  }

  lemma StartsInStep(max: nat, f: Fields, log: Log, data: ByteString, c: Pending)
    requires Linked(f.state, log)
    requires c == if Open(f.state).Some? then Since(Open(f.state).value, 0) else Nothing
    ensures Fits(f.state, c) && InRange(c, data, 0)
    ensures Top(max, f, log, c, data, 0) == Run(max, f, log, data)
  {
    hide Run;
    assert data[0..0] == [] && data[0..] == data;
    if c.Since? {
      AppendNothing(log, c.kind);
    }
  }

  lemma EndsInStep(max: nat, f: Fields, log: Log, c: Pending, data: ByteString)
    requires InRange(c, data, |data|)
    ensures Top(max, f, log, c, data, |data|) == Consumed(f, Seen(log, c, data, |data|))
  {
    assert data[|data|..] == [];
  }

  // ---- The parser ------------------------------------------------------------------------------

  class Parser {
    const maxHeaderSize: nat
    var fields: Fields
    var errno: Errno
    var log: Log

    ghost predicate Valid()
      reads this
    {
      errno == OK ==> Inv(maxHeaderSize, fields) && Linked(fields.state, log)
    }

    // http_parser_init
    constructor (ty: ParserType, lenient: bool, maxHeaderSize: nat)
      ensures Valid() && errno == OK && log == Empty
      ensures fields == InitialFields(ty, lenient) && this.maxHeaderSize == maxHeaderSize
    {
      this.maxHeaderSize := maxHeaderSize;
      fields, errno, log := InitialFields(ty, lenient), OK, Empty;
      InitialKeeps(maxHeaderSize, ty, lenient);
    }

    // http_parser_execute. n is the number of bytes parsed.
    method Execute(data: ByteString) returns (n: nat)
      requires Valid() && |data| + maxHeaderSize < TWO_32
      modifies this
      ensures Valid()
      ensures old(errno) != OK ==> n == 0 && unchanged(this)
      ensures old(errno) == OK && data == [] ==> AtEof(n, old(fields), old(log))
      ensures old(errno) == OK && data != [] ==> Ran(n, data, Run(maxHeaderSize, old(fields), old(log), data))
    {
      hide Inv, Run, InitialFields, At, Top, Seen;
      if errno != OK {
        return 0;
      }
      if data == [] {
        n := EndOfStream();
        return;
      }
      ghost var c := if Open(fields.state).Some? then Since(Open(fields.state).value, 0) else Nothing;
      var marks: Marks := if fields.state.HeaderField? then map[FieldData := 0]
                          else if fields.state.HeaderValue? then map[ValueData := 0]
                          else if IsUrlState(fields.state) then map[UrlData := 0]
                          else if fields.state.ResStatus? then map[StatusData := 0]
                          else map[];
      StartsInStep(maxHeaderSize, fields, log, data, c);
      RunKeeps(maxHeaderSize, fields, log, data);
      var m, cur, c' := ByteLoop(maxHeaderSize, data, Cursor(fields, marks, 0, log), c);
      if m.Leave? {
        fields, log, n := cur.f, cur.log, cur.p;
      } else if m.Error? {
        fields, log, errno, n := cur.f, cur.log, m.err, cur.p;
      } else {
        EndsInStep(maxHeaderSize, cur.f, cur.log, c', data);
        var log' := Leftovers(cur.marks, cur.log, data, c');
        fields, log, n := cur.f, log', |data|;
      }
    }

    // The empty buffer.
    method EndOfStream() returns (n: nat)
      requires Valid() && errno == OK
      modifies this
      ensures Valid() && AtEof(n, old(fields), old(log))
    {
      hide Inv;
      match fields.state
      case BodyIdentityEof =>
        log := Snoc(log, Notify(MessageComplete));
        return 0;
      case Dead => return 0;
      case StartReqOrRes => return 0;
      case StartRes => return 0;
      case StartReq => return 0;
      case _ =>
        errno := InvalidEofState;
        return 1;
    }

    // What an empty buffer, which stands for the end of the stream, does.
    twostate predicate AtEof(n: nat, f: Fields, l: Log)
      reads this
    {
      && fields == f
      && (f.state.BodyIdentityEof? ==> n == 0 && errno == OK && log == Snoc(l, Notify(MessageComplete)))
      && (f.state.Dead? || f.state.StartReqOrRes? || f.state.StartRes? || f.state.StartReq?
          ==> n == 0 && errno == OK && log == l)
      && (!f.state.BodyIdentityEof? && !f.state.Dead? && !f.state.StartReqOrRes? && !f.state.StartRes?
          && !f.state.StartReq?
          ==> n == 1 && errno == InvalidEofState && log == l)
    }

    // The byte machine's verdict r on data, as the caller of Execute sees it.
    ghost predicate Ran(n: nat, data: ByteString, r: RunResult)
      reads this
    {
      match r
      case Consumed(f, l) => n == |data| && errno == OK && fields == f && log == l
      case Stopped(f, l, left) => n + left == |data| && errno == OK && fields == f && log == l
      case Failed(e, left) => errno != OK && n <= |data| && (e != HeaderOverflow ==> errno == e && n + left == |data|)
      case RunCrashed => false
    }
  }
}
