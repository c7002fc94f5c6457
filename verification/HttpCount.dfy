// The header-size counter: nread is the number of counted bytes since the parser
// last finished a header block, a chunk-size line or a chunk.
module HttpCount {
  import opened Bytes
  import opened HttpTypes
  import opened HttpHop
  import opened HttpSpec

  // The states whose last byte ends a block that is bounded by the header limit.
  predicate EndsBlock(s: State) {
    s.HeadersDone? || s.ChunkSizeAlmostDone? || s.ChunkDataDone?
  }

  // Whether examining ch passes through such a state.
  predicate Resets(f: Fields, ch: Byte)
    decreases Rank(f.state)
  {
    var h := Switch(f, ch);
    || EndsBlock(f.state)
    || (h.flow.Again? && Rank(h.f.state) < Rank(f.state) && Resets(h.f, ch))
  }

  // Counted bytes since the last reset, n of them before s.
  function Counted(max: nat, f: Fields, log: Log, n: nat, s: ByteString): nat
    decreases s
  {
    if s == [] then n
    else match Step(max, f, log, s[0])
      case Next(f', log') => Counted(max, f', log', CountedByte(f, n, s[0]), s[1..])
      case _ => n
  }

  function CountedByte(f: Fields, n: nat, ch: Byte): nat {
    if !ParsingHeader(f.state) then if Resets(f, ch) then 0 else n
    else if Resets(f.(nread := f.nread + 1), ch) then 0 else n + 1
  }

  lemma ResponseCount(f: Fields, ch: Byte)
    requires IsResponseState(f.state)
    ensures ResponseHop(f, ch).f.nread == f.nread
  {
    hide ShouldKeepAlive;
  }

  lemma RequestCount(f: Fields, ch: Byte)
    requires IsRequestState(f.state)
    ensures RequestHop(f, ch).f.nread == f.nread
  {
    hide MethodName, NextCandidate, FirstCandidate;
  }

  lemma HeaderCount(f: Fields, ch: Byte)
    requires IsHeaderState(f.state)
    ensures HeaderHop(f, ch).f.nread == f.nread || f.state.HeadersDone?
    ensures f.state.HeadersDone? && HeaderHop(f, ch).flow != Fail(StrictError) ==> HeaderHop(f, ch).f.nread == 0
  {
    hide Token, Lower, FieldNext, ValueNext, ValueStartState, ShouldKeepAlive, MessageNeedsEof;
    ValueCount(f, ch);
  }

  lemma ValueCount(f: Fields, ch: Byte)
    ensures ValueNext(f, ch).Good? ==> ValueNext(f, ch).f.nread == f.nread
  {
    hide IsHeaderChar, ValueMatch;
  }

  lemma BodyCount(f: Fields, ch: Byte)
    requires IsBodyState(f.state)
    ensures BodyHop(f, ch).f.nread == f.nread || EndsBlock(f.state)
    ensures EndsBlock(f.state) && !BodyHop(f, ch).flow.Fail? && !BodyHop(f, ch).flow.Abort? ==>
      BodyHop(f, ch).f.nread == 0
  {
    hide ShouldKeepAlive, Unhex;
  }

  lemma SwitchCount(f: Fields, ch: Byte)
    ensures var h := Switch(f, ch);
      h.flow.Done? || h.flow.Again? || h.flow.Quit? ==>
        h.f.nread == (if EndsBlock(f.state) then 0 else f.nread) && (EndsBlock(f.state) ==> !h.flow.Again?)
  {
    hide ResponseHop, RequestHop, UrlHop, HeaderHop, BodyHop;
    if IsResponseState(f.state) {
      ResponseCount(f, ch);
    } else if IsRequestState(f.state) {
      RequestCount(f, ch);
    } else if IsUrlState(f.state) {
      UrlCount(f, ch);
    } else if IsHeaderState(f.state) {
      HeaderCount(f, ch);
      if EndsBlock(f.state) {
        EndRedoes(f, ch);
      }
    } else {
      BodyCount(f, ch);
      if EndsBlock(f.state) {
        EndRedoes(f, ch);
      }
    }
  }

  lemma UrlCount(f: Fields, ch: Byte)
    requires IsUrlState(f.state)
    ensures UrlHop(f, ch).f.nread == f.nread
  {
  }

  lemma EndRedoes(f: Fields, ch: Byte)
    requires EndsBlock(f.state)
    ensures !Switch(f, ch).flow.Again?
  {
    hide ShouldKeepAlive, ResponseHop, RequestHop, UrlHop;
  }

  lemma {:induction false} ChainCounts(f: Fields, log: Log, ch: Byte)
    ensures var r := Chain(f, log, ch);
      r.Next? || r.Stop? ==> r.f.nread == if Resets(f, ch) then 0 else f.nread
    decreases Rank(f.state)
  {
    hide Switch, Append, Rank;
    SwitchCount(f, ch);
    var h := Switch(f, ch);
    if h.flow.Again? && Rank(h.f.state) < Rank(f.state) {
      ChainCounts(h.f, LogAfter(h, log, ch), ch);
    }
  }

  // While no error is set, nread equals the bytes counted since the last reset and is
  // at most the limit; the byte that would take it past the limit is a header overflow.
  lemma {:induction false} RunCounts(max: nat, f: Fields, log: Log, s: ByteString)
    requires f.nread <= max
    ensures var r := Run(max, f, log, s);
      r.Consumed? ==> r.f.nread == Counted(max, f, log, f.nread, s) <= max
    decreases s
  {
    hide Chain, Resets;
    if s != [] {
      if ParsingHeader(f.state) && f.nread + 1 <= max {
        ChainCounts(f.(nread := f.nread + 1), log, s[0]);
      } else if !ParsingHeader(f.state) {
        ChainCounts(f, log, s[0]);
      }
      var r := Step(max, f, log, s[0]);
      if r.Next? {
        RunCounts(max, r.f, r.log, s[1..]);
      }
    }
  }
}
