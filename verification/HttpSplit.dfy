// Feeding the message parser its input in pieces.
module HttpSplit {
  import opened Bytes
  import opened HttpTypes
  import opened HttpHop
  import opened HttpSpec
  import opened HttpParser

  // A run over a + b is a run over a and then, if that consumed everything, over b.
  lemma {:induction false} RunSplit(max: nat, f: Fields, log: Log, a: ByteString, b: ByteString)
    ensures Run(max, f, log, a + b)
         == match Run(max, f, log, a)
            case Consumed(f', log') => Run(max, f', log', b)
            case Stopped(f', log', left) => Stopped(f', log', left + |b|)
            case Failed(e, left) => Failed(e, left + |b|)
            case RunCrashed => RunCrashed
    decreases a
  {
    hide Step;
    if a == [] {
      assert a + b == b;
    } else {
      assert (a + b)[0] == a[0] && (a + b)[1..] == a[1..] + b;
      var r := Step(max, f, log, a[0]);
      if r.Next? {
        RunSplit(max, r.f, r.log, a[1..], b);
      }
    }
  }

  // Split invariance of http_parser_execute: two parsers in the same state, one
  // given a + b at once and the other a and then b. If the one call consumes all its
  // input with no error and no upgrade exit, so do the two calls, and both parsers
  // end with the same fields and the same callbacks. An upgrade exit comes at the same
  // byte with the same fields and callbacks, those after the first call if it is in a; an
  // error comes at the same byte too, and is the same error unless that is a header
  // overflow. f1 and l1 are what the second parser has after its first call.
  method SplitInvariance(x: Parser, y: Parser, a: ByteString, b: ByteString)
    returns (n: nat, n1: nat, n2: nat, ghost f1: Fields, ghost l1: Log)
    requires x != y && x.Valid() && y.Valid() && x.errno == OK && y.errno == OK
    requires x.maxHeaderSize == y.maxHeaderSize && x.fields == y.fields && x.log == y.log
    requires a != [] && b != [] && |a| + |b| + x.maxHeaderSize < TWO_32
    modifies x, y
    ensures var r := Run(x.maxHeaderSize, old(x.fields), old(x.log), a + b);
      && x.Ran(n, a + b, r)
      && (r.Consumed? ==>
           n1 == |a| && n2 == |b| && x.errno == OK && y.errno == OK && x.fields == y.fields && x.log == y.log)
      && (r.Stopped? ==> if n <= |a| then n1 == n && f1 == x.fields && l1 == x.log
                         else n1 + n2 == n && x.fields == y.fields && x.log == y.log)
      && (r.Failed? ==> y.errno != OK && (r.err != HeaderOverflow ==> y.errno == x.errno && n1 + n2 == n))
  {
    hide Run;
    RunSplit(x.maxHeaderSize, x.fields, x.log, a, b);
    n := x.Execute(a + b);
    ghost var f0, l0 := y.fields, y.log;
    RunKeeps(y.maxHeaderSize, f0, l0, a);
    n1 := y.Execute(a);
    f1, l1, n2 := y.fields, y.log, 0;
    if y.errno == OK && n1 < |a| {
      return;
    }
    ghost var r1 := Run(y.maxHeaderSize, f0, l0, a);
    if r1.Consumed? {
      RunKeeps(y.maxHeaderSize, r1.f, r1.log, b);
    }
    n2 := y.Execute(b);
  }
}
