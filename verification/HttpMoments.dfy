/** The buffer between any two turns of the parser's loops: partly cut, with the pairs that are done
    already readable. */
module HttpMoments {
  import opened Wrappers
  import opened CStrings
  import opened KeyValue
  import opened HttpScan
  import opened HttpInPlace
  import opened HttpConservation
  import opened HttpDelivery

  /** The query loop after j turns, or at its end if it has fewer. */
  ghost function QueryAfter(s: seq<byte>, t: Table, n: nat, q: nat, eop: nat, j: nat): (r: Turn)
    requires Sealed(s, n) && q <= eop < n
    ensures |r.bytes| == |s| && Sealed(r.bytes, n) && (r.more ==> q <= r.at <= eop)
    decreases j
  {
    if j == 0 then Turn(s, t, q, true)
    else if q == eop then Turn(s, t, q, false)
    else
      var turn := QueryTurn(s, t, n, q, eop);
      if turn.more then QueryAfter(turn.bytes, turn.table, n, turn.at, eop, j - 1) else turn
  }

  /** It is a moment of the loop: from there the loop ends as it does from its start. */
  lemma {:induction false} QueryAfterRuns(s: seq<byte>, t: Table, n: nat, q: nat, eop: nat, j: nat)
    requires Sealed(s, n) && q <= eop < n
    ensures var r := QueryAfter(s, t, n, q, eop, j);
            QueryRun(s, t, n, q, eop) == if r.more then QueryRun(r.bytes, r.table, n, r.at, eop) else (r.bytes, r.table)
    decreases j
  {
    hide QueryTurn;
    if j > 0 && q < eop {
      var turn := QueryTurn(s, t, n, q, eop);
      if turn.more {
        QueryAfterRuns(turn.bytes, turn.table, n, turn.at, eop, j - 1);
      }
    }
  }

  /** i is a delimiter of one of the first j pairs. */
  predicate CutsFirst(pairs: Pairs, j: nat, i: nat) {
    pairs.Cons? && j > 0 && (i == pairs.head.sep || i == pairs.head.end || CutsFirst(pairs.tail, j - 1, i))
  }

  lemma {:induction false} CutsFirstIs(pairs: Pairs, j: nat, i: nat, k: nat)
    ensures CutsFirst(pairs, j, i) ==> pairs.Cuts(i)
    ensures k < j && k < pairs.Len() ==> CutsFirst(pairs, j, pairs.Nth(k).sep) && CutsFirst(pairs, j, pairs.Nth(k).end)
    decreases pairs
  {
    if pairs.Cons? && j > 0 {
      CutsFirstIs(pairs.tail, j - 1, i, if k > 0 then k - 1 else 0);
    }
  }

  lemma {:induction false} QueryAfterAt(b: seq<byte>, s: seq<byte>, t: Table, n: nat, q: nat, eop: nat, j: nat, i: nat)
    requires Sealed(b, n) && Sealed(s, n) && SameFrom(b, s, q) && q <= eop < n
    requires i < |s| && i != eop
    ensures QueryAfter(s, t, n, q, eop, j).bytes[i] == if CutsFirst(ScanQuery(b, n, q, eop), j, i) then NUL else s[i]
    decreases j
  {
    hide ScanPair, StrChr;
    if j > 0 && q < eop {
      ScanPairForward(b, s, n, q, eop);
      var turn := QueryTurn(s, t, n, q, eop);
      if turn.more {
        QueryAfterAt(b, turn.bytes, turn.table, n, turn.at, eop, j - 1, i);
      }
    }
  }

  /** The buffer of an accepted request after j turns of its query loop. */
  ghost function QueryBytes(b: seq<byte>, t: Table, n: nat, l: Layout, j: nat): seq<byte>
    requires Received(b, n) && Locate(b, n) == Some(l) && ScanMark(b, n, l.path, l.eop).Some?
  {
    var mark := ScanMark(b, n, l.path, l.eop).value;
    QueryAfter(Cut(b, mark), t, n, mark + 1, l.eop, j).bytes
  }

  lemma QueryBytesAt(b: seq<byte>, t: Table, n: nat, l: Layout, j: nat, i: nat)
    requires Received(b, n) && Locate(b, n) == Some(l) && ScanMark(b, n, l.path, l.eop).Some? && i < |b| && i != l.eop
    ensures |QueryBytes(b, t, n, l, j)| == |b|
    ensures QueryBytes(b, t, n, l, j)[i] ==
            if ScanMark(b, n, l.path, l.eop) == Some(i) || CutsFirst(QueryOf(b, n, l), j, i) then NUL else b[i]
  {
    hide Locate, ScanMark, ScanQuery, QueryAfter;
    var mark := ScanMark(b, n, l.path, l.eop).value;
    QueryAfterAt(b, Cut(b, mark), t, n, mark + 1, l.eop, j, i);
  }

  /** The space behind the path is not cut by the query loop. */
  lemma {:induction false} EndKept(s: seq<byte>, t: Table, n: nat, q: nat, eop: nat, j: nat)
    requires Sealed(s, n) && q <= eop < n
    ensures QueryAfter(s, t, n, q, eop, j).bytes[eop] == s[eop]
    decreases j
  {
    hide ScanPair;
    if j > 0 && q < eop {
      var turn := QueryTurn(s, t, n, q, eop);
      if turn.more {
        EndKept(turn.bytes, turn.table, n, turn.at, eop, j - 1);
      }
    }
  }

  /** After every turn of the query loop the buffer is a partly cut one. */
  lemma QueryMoment(b: seq<byte>, t: Table, n: nat, l: Layout, j: nat)
    requires Received(b, n) && Locate(b, n) == Some(l) && ScanMark(b, n, l.path, l.eop).Some?
    ensures PartlyCut(b, n, l, QueryBytes(b, t, n, l, j))
  {
    hide Locate, ScanMark, ScanQuery, QueryOf, QueryAfter, HeadersOf;
    var u := QueryBytes(b, t, n, l, j);
    QueryBytesAt(b, t, n, l, j, 0);
    forall i | 0 <= i < |b|
      ensures u[i] == b[i] || (u[i] == NUL && Delimits(b, n, l, i))
    {
      if i == l.eop {
        EndKeptThere(b, t, n, l, j);
      } else {
        QueryBytesAt(b, t, n, l, j, i);
        CutsFirstIs(QueryOf(b, n, l), j, i, 0);
        QueryDelimits(b, n, l, i);
      }
    }
  }

  lemma EndKeptThere(b: seq<byte>, t: Table, n: nat, l: Layout, j: nat)
    requires Received(b, n) && Locate(b, n) == Some(l) && ScanMark(b, n, l.path, l.eop).Some?
    ensures |QueryBytes(b, t, n, l, j)| == |b| && QueryBytes(b, t, n, l, j)[l.eop] == b[l.eop]
  {
    hide Locate, QueryAfter, ScanQuery;
    var mark := ScanMark(b, n, l.path, l.eop).value;
    EndKept(Cut(b, mark), t, n, mark + 1, l.eop, j);
  }

  lemma QueryDelimits(b: seq<byte>, n: nat, l: Layout, i: nat)
    requires Received(b, n) && Locate(b, n) == Some(l)
    ensures ScanMark(b, n, l.path, l.eop) == Some(i) || QueryOf(b, n, l).Cuts(i) ==> Delimits(b, n, l, i)
  {
  }

  /** Of a pair whose turn is over, the key is a string, and the value is unless it ends the path; and
      they stay the same strings (QueryPairIs). */
  lemma QueryReadable(b: seq<byte>, t: Table, n: nat, l: Layout, j: nat, k: nat)
    requires Received(b, n) && Locate(b, n) == Some(l) && ScanMark(b, n, l.path, l.eop).Some?
    requires k < j && k < QueryOf(b, n, l).Len()
    ensures var u, x := QueryBytes(b, t, n, l, j), QueryOf(b, n, l).Nth(k);
            && x.key <= x.sep < x.value <= x.end < n
            && StringAt(u, x.key, Sub(b, x.key, x.sep))
            && (x.end < l.eop ==> StringAt(u, x.value, Sub(b, x.value, x.end)))
  {
    hide Locate, ScanMark, ScanQuery, QueryOf, QueryBytes, Delimits, PartlyCut, StringAt, Sub;
    QueryMoment(b, t, n, l, j);
    QueryPairAt(b, n, l, k);
    var x := QueryOf(b, n, l).Nth(k);
    CutsFirstIs(QueryOf(b, n, l), j, 0, k);
    QueryBytesAt(b, t, n, l, j, x.sep);
    if x.end < l.eop {
      QueryBytesAt(b, t, n, l, j, x.end);
    }
    QueryPairIs(b, n, l, QueryBytes(b, t, n, l, j), k);
  }

  /** The header loop after j turns, or at its end if it has fewer. */
  ghost function HeaderAfter(s: seq<byte>, t: Table, n: nat, p: nat, j: nat): (r: Turn)
    requires Sealed(s, n) && p <= n + 1
    ensures |r.bytes| == |s| && Sealed(r.bytes, n) && p <= r.at <= n + 1
    decreases j
  {
    if j == 0 then Turn(s, t, p, true)
    else if p >= n then Turn(s, t, p, false)
    else
      var turn := HeaderTurn(s, t, n, p);
      if turn.more then HeaderAfter(turn.bytes, turn.table, n, turn.at, j - 1) else turn
  }

  lemma {:induction false} HeaderAfterRuns(s: seq<byte>, t: Table, n: nat, p: nat, j: nat)
    requires Sealed(s, n) && p <= n + 1
    ensures var r := HeaderAfter(s, t, n, p, j);
            HeaderRun(s, t, n, p) == if r.more then HeaderRun(r.bytes, r.table, n, r.at) else r
    decreases j
  {
    hide HeaderTurn;
    if j > 0 && p < n {
      var turn := HeaderTurn(s, t, n, p);
      if turn.more {
        HeaderAfterRuns(turn.bytes, turn.table, n, turn.at, j - 1);
      }
    }
  }

  /** The pairs of the first j lines. */
  ghost function FirstLines(b: seq<byte>, n: nat, p: nat, j: nat): Pairs
    requires Sealed(b, n) && p <= n + 1
    decreases j
  {
    if j == 0 || p >= n then Nil else
      match ScanLine(b, n, p)
      case None => Nil
      case Some(line) =>
        var more := FirstLines(b, n, line.0 + 2, j - 1);
        if line.1.None? then more else Cons(PairAt(p, line.1.value, line.1.value + 2, line.0), more)
  }

  lemma {:induction false} FirstLinesIs(b: seq<byte>, n: nat, p: nat, j: nat, i: nat, k: nat)
    requires Sealed(b, n) && p <= n + 1
    ensures FirstLines(b, n, p, j).Cuts(i) ==> ScanHeaders(b, n, p).Cuts(i)
    ensures k < FirstLines(b, n, p, j).Len() ==>
              k < ScanHeaders(b, n, p).Len() && FirstLines(b, n, p, j).Nth(k) == ScanHeaders(b, n, p).Nth(k)
    decreases j
  {
    hide ScanLine;
    if j > 0 && p < n && ScanLine(b, n, p).Some? {
      var line := ScanLine(b, n, p).value;
      FirstLinesIs(b, n, line.0 + 2, j - 1, i, if line.1.None? || k == 0 then k else k - 1);
    }
  }

  lemma {:induction false} OwnCuts(pairs: Pairs, k: nat)
    requires k < pairs.Len()
    ensures pairs.Cuts(pairs.Nth(k).sep) && pairs.Cuts(pairs.Nth(k).end)
    decreases pairs
  {
    if k > 0 {
      OwnCuts(pairs.tail, k - 1);
    }
  }

  lemma {:induction false} HeaderAfterAt(b: seq<byte>, s: seq<byte>, t: Table, n: nat, p: nat, j: nat, i: nat)
    requires Sealed(b, n) && Sealed(s, n) && SameFrom(b, s, p) && p <= n + 1 && i < |s|
    ensures HeaderAfter(s, t, n, p, j).bytes[i] == if FirstLines(b, n, p, j).Cuts(i) then NUL else s[i]
    decreases j
  {
    hide ScanLine, ScanEnd, StrChr, SetPair;
    if j > 0 && p < n {
      ScanLineForward(b, s, n, p);
      var turn := HeaderTurn(s, t, n, p);
      if turn.more {
        HeaderAfterAt(b, turn.bytes, turn.table, n, turn.at, j - 1, i);
      }
    }
  }

  /** The buffer of an accepted request after j turns of its header loop. */
  ghost function HeaderBytes(b: seq<byte>, tq: Table, th: Table, n: nat, l: Layout, j: nat): seq<byte>
    requires Received(b, n) && Locate(b, n) == Some(l)
  {
    HeaderAfter(Cut(TargetRun(b, tq, n, l.path, l.eop).0, l.eol), th, n, l.eol + 2, j).bytes
  }

  lemma HeaderBytesAt(b: seq<byte>, tq: Table, th: Table, n: nat, l: Layout, j: nat, i: nat)
    requires Received(b, n) && Locate(b, n) == Some(l) && i < |b|
    ensures |HeaderBytes(b, tq, th, n, l, j)| == |b|
    ensures HeaderBytes(b, tq, th, n, l, j)[i] ==
            if FirstLines(b, n, l.eol + 2, j).Cuts(i) || i == l.eol || TargetCuts(b, n, l.path, l.eop, i) then NUL else b[i]
  {
    hide Locate, TargetRun, TargetCuts, HeaderAfter, FirstLines;
    LayoutOk(b, n, l);
    TargetRunForward(b, tq, n, l.path, l.eop);
    TargetRunAt(b, tq, n, l.path, l.eop, i);
    HeaderAfterAt(b, Cut(TargetRun(b, tq, n, l.path, l.eop).0, l.eol), th, n, l.eol + 2, j, i);
  }

  /** After every turn of the header loop the buffer is a partly cut one. */
  lemma HeaderMoment(b: seq<byte>, tq: Table, th: Table, n: nat, l: Layout, j: nat)
    requires Received(b, n) && Locate(b, n) == Some(l)
    ensures PartlyCut(b, n, l, HeaderBytes(b, tq, th, n, l, j))
  {
    hide Locate, TargetCuts, HeaderBytes, FirstLines, ScanHeaders;
    var u := HeaderBytes(b, tq, th, n, l, j);
    HeaderBytesAt(b, tq, th, n, l, j, 0);
    forall i | 0 <= i < |b|
      ensures u[i] == b[i] || (u[i] == NUL && Delimits(b, n, l, i))
    {
      HeaderBytesAt(b, tq, th, n, l, j, i);
      FirstLinesIs(b, n, l.eol + 2, j, i, 0);
    }
  }

  /** Of a header whose turn is over, the name is a string, and the value is if it starts no later than
      its line ends; and they stay the same strings (HeaderPairIs). */
  lemma HeaderReadable(b: seq<byte>, tq: Table, th: Table, n: nat, l: Layout, j: nat, k: nat)
    requires Received(b, n) && Locate(b, n) == Some(l) && k < FirstLines(b, n, l.eol + 2, j).Len()
    ensures k < HeadersOf(b, n, l).Len()
    ensures var u, x := HeaderBytes(b, tq, th, n, l, j), HeadersOf(b, n, l).Nth(k);
            && x.key <= x.sep < x.end < n && x.value == x.sep + 2
            && StringAt(u, x.key, Sub(b, x.key, x.sep))
            && (x.value <= x.end ==> StringAt(u, x.value, Sub(b, x.value, x.end)))
  {
    hide Locate, TargetCuts, HeaderBytes, FirstLines, ScanHeaders, PartlyCut, StringAt, Sub;
    HeaderMoment(b, tq, th, n, l, j);
    FirstLinesIs(b, n, l.eol + 2, j, 0, k);
    var x := HeadersOf(b, n, l).Nth(k);
    HeaderPairAt(b, n, l, k);
    OwnCuts(FirstLines(b, n, l.eol + 2, j), k);
    HeaderBytesAt(b, tq, th, n, l, j, x.sep);
    HeaderBytesAt(b, tq, th, n, l, j, x.end);
    HeaderPairIs(b, n, l, HeaderBytes(b, tq, th, n, l, j), k);
  }
}
