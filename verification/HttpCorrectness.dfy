/** The parser against the grammar: same requests accepted, same strings delivered, body untouched. */
module HttpCorrectness {
  import opened Wrappers
  import opened CStrings
  import opened KeyValue
  import opened HttpScan
  import opened HttpInPlace
  import opened HttpConservation
  import opened HttpDelivery
  import opened HttpRefinement
  import G = HttpGrammar

  /** Where the path string ends: at the question mark, or at the space. */
  ghost function PathEnd(b: seq<byte>, n: nat, l: Layout): (e: nat)
    requires Received(b, n) && Locate(b, n) == Some(l)
    ensures e < |b|
  {
    var mark := ScanMark(b, n, l.path, l.eop);
    if mark.Some? then mark.value else l.eop
  }

  ghost function MessageAt(b: seq<byte>, n: nat, l: Layout): G.Message
    requires Received(b, n) && Locate(b, n) == Some(l)
  {
    var target, more := Sub(b, l.path, l.eop), Sub(b, l.eol + 2, n);
    G.Message(l.mask, G.PathOf(target), G.QueryOf(target), Sub(b, l.eop + 1, l.eol), G.Fields(more), G.Leave(more))
  }

  lemma TokenizeIs(b: seq<byte>, n: nat)
    requires Received(b, n)
    ensures G.Tokenize(Sub(b, 0, n)) == if Locate(b, n).Some? then Some(MessageAt(b, n, Locate(b, n).value)) else None
  {
    hide ScanMethod, G.MethodOf, ScanPath, G.TargetOf, ScanProtocol, G.ProtocolOf, ScanSpaces, G.TrimSpaces;
    MethodIs(b, n);
    var m := ScanMethod(b, n);
    if m.Some? {
      SubDrop(b, 0, n, m.value.length);
      SpacesAre(b, n, m.value.length);
      var p := ScanSpaces(b, n, m.value.length);
      TargetIs(b, n, p);
      var eop := ScanPath(b, n, p);
      if eop.Some? {
        ProtocolIsText(b, n, eop.value + 1);
      }
    }
  }

  /** The parser accepts exactly the requests the grammar has a reading for. */
  lemma AcceptsSame(b: seq<byte>, tq: Table, th: Table, n: nat)
    requires Received(b, n)
    ensures RunRequest(b, tq, th, n).Ok() <==> G.Tokenize(Sub(b, 0, n)).Some?
  {
    TokenizeIs(b, n);
    if Locate(b, n).Some? {
      LocatedParse(b, tq, th, n, Locate(b, n).value);
    } else {
      UnlocatedParse(b, tq, th, n);
    }
  }

  /** And these are the requests that open with a method's name, have behind it and its spaces a target
      that starts with a slash and ends at a space, thirteen bytes or more from the target on, and then
      eleven or more that start with HTTP and hold a CR. */
  lemma AcceptedWhen(b: seq<byte>, tq: Table, th: Table, n: nat)
    requires Received(b, n)
    ensures var m := G.MethodOf(Sub(b, 0, n));
            RunRequest(b, tq, th, n).Ok() <==>
            && m.Some?
            && var t := G.TrimSpaces(Sub(b, 0, n).Drop(m.value.skip));
            && 13 <= t.Len() && t.head == '/' && G.Split(t, ' ').Some?
            && var p := G.Split(t, ' ').value.1;
            && 11 <= p.Len() && p.Take(4) == Char('H', Char('T', Char('T', Char('P', End)))) && G.Split(p, '\r').Some?
  {
    hide RunRequest, G.Split, G.MethodOf, Sub, G.TrimSpaces, Locate;
    HttpIs();
    AcceptsSame(b, tq, th, n);
  }

  lemma HttpIs()
    ensures G.Lit("HTTP") == Char('H', Char('T', Char('T', Char('P', End))))
  {
    var s: seq<byte> := "HTTP";
    assert Sub(s, 4, 4) == End;
    assert Sub(s, 3, 4) == Char('P', End);
    assert Sub(s, 2, 4) == Char('T', Char('P', End));
  }

  lemma TargetTexts(b: seq<byte>, n: nat, l: Layout)
    requires Received(b, n) && Locate(b, n) == Some(l)
    ensures G.PathOf(Sub(b, l.path, l.eop)) == Sub(b, l.path, PathEnd(b, n, l))
    ensures QueryOf(b, n, l).Len() == G.QueryOf(Sub(b, l.path, l.eop)).Len()
  {
    hide ScanQuery, G.QueryPairs, StrChr, Locate, Sub, G.Split;
    SealTerminates(b, n, l.path);
    SplitAt(b, l.path, l.eop, '?');
    var mark := ScanMark(b, n, l.path, l.eop);
    if mark.Some? {
      QueryLenIs(b, n, mark.value + 1, l.eop);
    }
  }

  lemma QueryText(b: seq<byte>, n: nat, l: Layout, k: nat)
    requires Received(b, n) && Locate(b, n) == Some(l) && k < QueryOf(b, n, l).Len()
    ensures k < G.QueryOf(Sub(b, l.path, l.eop)).Len()
    ensures var x := QueryOf(b, n, l).Nth(k);
            && x.sep < x.value <= x.end <= l.eop
            && G.QueryOf(Sub(b, l.path, l.eop)).Nth(k) == G.QueryArg(Sub(b, x.key, x.sep), Sub(b, x.value, x.end))
  {
    hide ScanQuery, G.QueryPairs, StrChr, Locate, Sub, G.Split;
    SealTerminates(b, n, l.path);
    SplitAt(b, l.path, l.eop, '?');
    QueryNthIs(b, n, ScanMark(b, n, l.path, l.eop).value + 1, l.eop, k);
  }

  /** A provided table is left with its own pairs and then the first offered ones that fit. */
  lemma {:induction false} StoredIs(t: Table, pairs: Pairs, k: nat)
    requires t.Valid() && !t.malloced
    ensures |Stored(t, pairs).pairs| == Min(t.capacity, |t.pairs| + pairs.Len())
    ensures k < |Stored(t, pairs).pairs| ==>
              Stored(t, pairs).pairs[k] ==
              if k < |t.pairs| then t.pairs[k]
              else KvPair(pairs.Nth(k - |t.pairs|).key, pairs.Nth(k - |t.pairs|).value)
    decreases pairs
  {
    if pairs.Cons? {
      StoredIs(SetPair(t, KvPair(pairs.head.key, pairs.head.value), false), pairs.tail, k);
    }
  }

  /** An empty table over a provided buffer, as every request starts with. */
  predicate Clean(t: Table) { t.pairs == [] && !t.malloced }

  /** A buffer in which all the delimiters have been stored over. */
  ghost predicate FullyCut(b: seq<byte>, n: nat, l: Layout, s: seq<byte>)
    requires Received(b, n) && Locate(b, n) == Some(l)
  {
    |s| == |b| && forall i :: 0 <= i < |b| ==> s[i] == if Delimits(b, n, l, i) then NUL else b[i]
  }

  /** The buffer an accepted request leaves is a fully cut one. */
  lemma LeavesFullyCut(b: seq<byte>, tq: Table, th: Table, n: nat, l: Layout)
    requires Received(b, n) && Locate(b, n) == Some(l)
    ensures FullyCut(b, n, l, RunRequest(b, tq, th, n).rest.bytes)
  {
    BytesLeft(b, tq, th, n, l, 0);
    forall i | 0 <= i < |b|
      ensures RunRequest(b, tq, th, n).rest.bytes[i] == if Delimits(b, n, l, i) then NUL else b[i]
    {
      BytesLeft(b, tq, th, n, l, i);
    }
  }

  lemma FullyIsPartly(b: seq<byte>, n: nat, l: Layout, s: seq<byte>)
    requires Received(b, n) && Locate(b, n) == Some(l) && FullyCut(b, n, l, s)
    ensures PartlyCut(b, n, l, s)
  {
  }

  /** Between the path stage and the protocol stage the buffer is a partly cut one. */
  lemma PathStageIsPartly(b: seq<byte>, tq: Table, n: nat, l: Layout)
    requires Received(b, n) && Locate(b, n) == Some(l)
    ensures PartlyCut(b, n, l, TargetRun(b, tq, n, l.path, l.eop).0)
  {
    hide TargetRun, Locate, TargetCuts;
    forall i | 0 <= i < |b|
      ensures var t := TargetRun(b, tq, n, l.path, l.eop).0;
              t[i] == b[i] || (t[i] == NUL && Delimits(b, n, l, i))
    {
      TargetRunAt(b, tq, n, l.path, l.eop, i);
    }
  }

  /** The layout of an accepted request, and all that is read off it. */
  lemma Reading(b: seq<byte>, tq: Table, th: Table, n: nat) returns (l: Layout)
    requires Received(b, n) && RunRequest(b, tq, th, n).Ok()
    ensures Locate(b, n) == Some(l) && G.Tokenize(Sub(b, 0, n)).Some?
    ensures G.Tokenize(Sub(b, 0, n)).value == MessageAt(b, n, l)
    ensures var r := RunRequest(b, tq, th, n);
            && r.mask == l.mask && r.path == Some(l.path) && r.query == Stored(tq, QueryOf(b, n, l))
            && r.rest.protocol == Some(l.eop + 1) && r.rest.headers == Stored(th, HeadersOf(b, n, l))
            && r.rest.cursor == ScanStop(b, n, l.eol + 2) && |r.rest.bytes| == |b|
  {
    AcceptsSame(b, tq, th, n);
    TokenizeIs(b, n);
    l := Locate(b, n).value;
    LocatedParse(b, tq, th, n, l);
    BytesLeft(b, tq, th, n, l, 0);
  }

  /** Method, path and protocol of an accepted request. */
  lemma LineDelivered(b: seq<byte>, tq: Table, th: Table, n: nat)
    requires Received(b, n) && RunRequest(b, tq, th, n).Ok()
    ensures G.Tokenize(Sub(b, 0, n)).Some?
    ensures var r, m := RunRequest(b, tq, th, n), G.Tokenize(Sub(b, 0, n)).value;
            && r.mask == m.mask && r.path.Some?
            && StringAt(r.rest.bytes, r.path.value, m.path)
            && StringAt(r.rest.bytes, r.rest.protocol.value, m.protocol)
  {
    var l := Reading(b, tq, th, n);
    LeavesFullyCut(b, tq, th, n, l);
    LineStrings(b, n, l, RunRequest(b, tq, th, n).rest.bytes);
  }

  lemma LineStrings(b: seq<byte>, n: nat, l: Layout, s: seq<byte>)
    requires Received(b, n) && Locate(b, n) == Some(l) && FullyCut(b, n, l, s)
    ensures StringAt(s, l.path, MessageAt(b, n, l).path) && StringAt(s, l.eop + 1, MessageAt(b, n, l).protocol)
  {
    hide Locate, ScanMark, G.PathOf, G.QueryOf, TargetCuts, HeadersOf;
    FullyIsPartly(b, n, l, s);
    TargetTexts(b, n, l);
    MarkCut(b, n, l);
    PathIs(b, n, l, s);
    ProtocolIs(b, n, l, s);
  }

  lemma MarkCut(b: seq<byte>, n: nat, l: Layout)
    requires Received(b, n) && Locate(b, n) == Some(l)
    ensures Delimits(b, n, l, PathEnd(b, n, l)) && Delimits(b, n, l, l.eol)
    ensures PathEnd(b, n, l) == var mark := ScanMark(b, n, l.path, l.eop); if mark.Some? then mark.value else l.eop
  {
  }

  /** The query table of an accepted request holds the first pairs of the query that fit, in order. */
  lemma QueryDelivered(b: seq<byte>, tq: Table, th: Table, n: nat, k: nat)
    requires Received(b, n) && RunRequest(b, tq, th, n).Ok() && Clean(tq)
    ensures G.Tokenize(Sub(b, 0, n)).Some?
    ensures var r, m := RunRequest(b, tq, th, n), G.Tokenize(Sub(b, 0, n)).value;
            && |r.query.pairs| == Min(tq.capacity, m.query.Len())
            && (k < |r.query.pairs| ==>
                  && StringAt(r.rest.bytes, r.query.pairs[k].key, m.query.Nth(k).key)
                  && StringAt(r.rest.bytes, r.query.pairs[k].value, m.query.Nth(k).value))
  {
    var l := Reading(b, tq, th, n);
    CleanStored(tq, QueryOf(b, n, l), k);
    TargetTexts(b, n, l);
    if k < QueryOf(b, n, l).Len() {
      LeavesFullyCut(b, tq, th, n, l);
      QueryStrings(b, n, l, RunRequest(b, tq, th, n).rest.bytes, k);
    }
  }

  lemma CleanStored(t: Table, pairs: Pairs, k: nat)
    requires Clean(t)
    ensures |Stored(t, pairs).pairs| == Min(t.capacity, pairs.Len()) <= pairs.Len()
    ensures k < |Stored(t, pairs).pairs| ==>
              Stored(t, pairs).pairs[k] == KvPair(pairs.Nth(k).key, pairs.Nth(k).value)
  {
    StoredIs(t, pairs, k);
  }

  lemma QueryStrings(b: seq<byte>, n: nat, l: Layout, s: seq<byte>, k: nat)
    requires Received(b, n) && Locate(b, n) == Some(l) && FullyCut(b, n, l, s) && k < QueryOf(b, n, l).Len()
    ensures k < MessageAt(b, n, l).query.Len()
    ensures var x, arg := QueryOf(b, n, l).Nth(k), MessageAt(b, n, l).query.Nth(k);
            StringAt(s, x.key, arg.key) && StringAt(s, x.value, arg.value)
  {
    hide Locate, QueryOf, G.PathOf, G.QueryOf, TargetCuts, HeadersOf;
    FullyIsPartly(b, n, l, s);
    QueryText(b, n, l, k);
    QueryPairAt(b, n, l, k);
    QueryPairIs(b, n, l, s, k);
  }

  /** The byte behind a header line's CR is never cut. */
  lemma {:induction false} GapUncut(b: seq<byte>, n: nat, p: nat, k: nat)
    requires Sealed(b, n) && p <= n + 1 && k < ScanHeaders(b, n, p).Len()
    ensures !ScanHeaders(b, n, p).Cuts(ScanHeaders(b, n, p).Nth(k).end + 1)
    ensures p <= ScanHeaders(b, n, p).Nth(k).end < n
    decreases n + 1 - p
  {
    var line := ScanLine(b, n, p).value;
    var more := ScanHeaders(b, n, line.0 + 2);
    if line.1.None? || k > 0 {
      GapUncut(b, n, line.0 + 2, if line.1.None? then k else k - 1);
    } else if more.Cuts(line.0 + 1) {
      HeaderCutsAre(b, n, line.0 + 2, line.0 + 1);
    }
  }

  /** The pair p, in the buffer s that b became, is the field f: the name always, the value if and only
      if the colon was not the last byte of its line or the byte behind the line's CR is a NUL. */
  ghost predicate HeaderIs(b: seq<byte>, s: seq<byte>, p: KvPair, f: G.Field) {
    && StringAt(s, p.key, f.name) && p.value < |b|
    && (StringAt(s, p.value, f.value) <==> !f.tight || b[p.value] == NUL)
  }

  /** The header table of an accepted request holds the first fields that fit, in order. */
  lemma HeaderDelivered(b: seq<byte>, tq: Table, th: Table, n: nat, k: nat)
    requires Received(b, n) && RunRequest(b, tq, th, n).Ok() && Clean(th)
    ensures G.Tokenize(Sub(b, 0, n)).Some?
    ensures var r, m := RunRequest(b, tq, th, n), G.Tokenize(Sub(b, 0, n)).value;
            && |r.rest.headers.pairs| == Min(th.capacity, m.headers.Len())
            && (k < |r.rest.headers.pairs| ==>
                  HeaderIs(b, r.rest.bytes, r.rest.headers.pairs[k], m.headers.Nth(k)))
  {
    hide RunRequest, Locate, ScanHeaders, ScanStop, G.Tokenize, G.PathOf, G.QueryOf, G.Fields, G.Leave, Sub, Stored;
    hide HeaderIs, FullyCut;
    var l := Reading(b, tq, th, n);
    CleanStored(th, HeadersOf(b, n, l), k);
    HeadersLenIs(b, n, l.eol + 2);
    if k < HeadersOf(b, n, l).Len() {
      LeavesFullyCut(b, tq, th, n, l);
      HeaderStrings(b, n, l, RunRequest(b, tq, th, n).rest.bytes, k);
    }
  }

  lemma HeaderStrings(b: seq<byte>, n: nat, l: Layout, s: seq<byte>, k: nat)
    requires Received(b, n) && Locate(b, n) == Some(l) && FullyCut(b, n, l, s) && k < HeadersOf(b, n, l).Len()
    ensures k < G.Fields(Sub(b, l.eol + 2, n)).Len()
    ensures var x := HeadersOf(b, n, l).Nth(k);
            HeaderIs(b, s, KvPair(x.key, x.value), G.Fields(Sub(b, l.eol + 2, n)).Nth(k))
  {
    hide Locate, ScanHeaders, Delimits, G.Fields, StringAt, Sub, PartlyCut, FullyCut, NulFree;
    var x := HeadersOf(b, n, l).Nth(k);
    HeadersNthIs(b, n, l.eol + 2, k);
    FullyIsPartly(b, n, l, s);
    HeaderPairAt(b, n, l, k);
    CutAt(b, n, l, s, x.sep);
    CutAt(b, n, l, s, x.end);
    HeaderPairIs(b, n, l, s, k);
    NothingFrom(b, x.value, x.end);
    if x.sep + 1 == x.end {
      TightString(b, n, l, s, k);
    }
  }

  lemma CutAt(b: seq<byte>, n: nat, l: Layout, s: seq<byte>, i: nat)
    requires Received(b, n) && Locate(b, n) == Some(l) && FullyCut(b, n, l, s) && i < |b| && Delimits(b, n, l, i)
    ensures |s| == |b| && s[i] == NUL
  {
  }

  lemma NothingFrom(b: seq<byte>, p: nat, e: nat)
    requires e <= |b|
    ensures e <= p ==> Sub(b, p, e) == End
  {
  }

  lemma TightString(b: seq<byte>, n: nat, l: Layout, s: seq<byte>, k: nat)
    requires Received(b, n) && Locate(b, n) == Some(l) && FullyCut(b, n, l, s) && k < HeadersOf(b, n, l).Len()
    requires HeadersOf(b, n, l).Nth(k).sep + 1 == HeadersOf(b, n, l).Nth(k).end
    ensures var x := HeadersOf(b, n, l).Nth(k);
            x.value <= n && (StringAt(s, x.value, End) <==> b[x.value] == NUL)
  {
    hide Locate, ScanHeaders, Delimits;
    HeaderPairAt(b, n, l, k);
    GapUncutHere(b, n, l, k);
    assert s[n] == NUL;
  }

  lemma GapUncutHere(b: seq<byte>, n: nat, l: Layout, k: nat)
    requires Received(b, n) && Locate(b, n) == Some(l) && k < HeadersOf(b, n, l).Len()
    ensures !Delimits(b, n, l, HeadersOf(b, n, l).Nth(k).end + 1)
  {
    hide ScanHeaders, TargetCuts, Locate;
    GapUncut(b, n, l.eol + 2, k);
    var i := HeadersOf(b, n, l).Nth(k).end + 1;
    if Delimits(b, n, l, i) {
      DelimitersAre(b, n, l, i);
    }
  }

  lemma {:induction false} StopBehindCuts(b: seq<byte>, n: nat, p: nat, i: nat)
    requires Sealed(b, n) && p <= n + 1 && ScanHeaders(b, n, p).Cuts(i)
    ensures i < ScanStop(b, n, p)
    decreases n + 1 - p
  {
    var line := ScanLine(b, n, p).value;
    if ScanHeaders(b, n, line.0 + 2).Cuts(i) {
      StopBehindCuts(b, n, line.0 + 2, i);
    }
  }

  /** Nothing from the cursor on is touched: the body is as it was received. */
  lemma BodyUntouched(b: seq<byte>, tq: Table, th: Table, n: nat, i: nat)
    requires Received(b, n) && RunRequest(b, tq, th, n).Ok() && RunRequest(b, tq, th, n).rest.cursor <= i < |b|
    ensures |RunRequest(b, tq, th, n).rest.bytes| == |b| && RunRequest(b, tq, th, n).rest.bytes[i] == b[i]
  {
    hide RunRequest, Locate, ScanHeaders, ScanStop, TargetCuts, Delimits, G.Tokenize;
    var l := Reading(b, tq, th, n);
    BytesLeft(b, tq, th, n, l, i);
    if Delimits(b, n, l, i) {
      DelimitersAre(b, n, l, i);
      StopBehindCuts(b, n, l.eol + 2, i);
    }
  }

  lemma BodySame(b: seq<byte>, tq: Table, th: Table, n: nat)
    requires Received(b, n) && RunRequest(b, tq, th, n).Ok()
    ensures SameFrom(b, RunRequest(b, tq, th, n).rest.bytes, RunRequest(b, tq, th, n).rest.cursor)
  {
    var l := Reading(b, tq, th, n);
    hide RunRequest, Locate;
    forall i | RunRequest(b, tq, th, n).rest.cursor <= i < |b|
      ensures b[i] == RunRequest(b, tq, th, n).rest.bytes[i]
    {
      BodyUntouched(b, tq, th, n, i);
    }
  }

  lemma {:induction false} SubSame(s: seq<byte>, t: seq<byte>, from: nat, to: nat)
    requires SameFrom(s, t, from) && to <= |s|
    ensures Sub(s, from, to) == Sub(t, from, to)
    decreases if from < to then to - from else 0
  {
    if from < to {
      SubSame(s, t, from + 1, to);
    }
  }

  /** The cursor is left at what the grammar leaves over, at most one byte behind the data. */
  lemma CursorIs(b: seq<byte>, tq: Table, th: Table, n: nat)
    requires Received(b, n) && RunRequest(b, tq, th, n).Ok()
    ensures G.Tokenize(Sub(b, 0, n)).Some?
    ensures var r := RunRequest(b, tq, th, n).rest;
            && r.cursor <= n + 1 && |r.bytes| == |b|
            && Sub(r.bytes, r.cursor, n) == G.Tokenize(Sub(b, 0, n)).value.rest
  {
    hide RunRequest, Locate, ScanHeaders, ScanStop, G.Tokenize, G.PathOf, G.QueryOf, G.Fields, G.Leave, Sub, Stored;
    var l := Reading(b, tq, th, n);
    LeaveIs(b, n, l.eol + 2);
    BodySame(b, tq, th, n);
    SubSame(b, RunRequest(b, tq, th, n).rest.bytes, RunRequest(b, tq, th, n).rest.cursor, n);
  }

  lemma {:induction false} StopBehindLines(b: seq<byte>, n: nat, p: nat, k: nat)
    requires Sealed(b, n) && p <= n + 1 && k < ScanHeaders(b, n, p).Len()
    ensures ScanHeaders(b, n, p).Nth(k).end + 2 <= ScanStop(b, n, p)
    decreases n + 1 - p
  {
    var line := ScanLine(b, n, p).value;
    if line.1.None? || k > 0 {
      StopBehindLines(b, n, line.0 + 2, if line.1.None? then k else k - 1);
    }
  }

  /** When text without NULs goes on behind the header section, every field whose line ends with its
      colon is delivered with bytes of what follows the line in place of its empty value. */
  lemma TightValueLost(b: seq<byte>, tq: Table, th: Table, n: nat, k: nat)
    requires Received(b, n) && RunRequest(b, tq, th, n).Ok() && Clean(th) && G.Tokenize(Sub(b, 0, n)).Some?
    requires var m := G.Tokenize(Sub(b, 0, n)).value;
             k < m.headers.Len() && k < th.capacity && m.headers.Nth(k).tight && m.rest.Char?
    requires NulFree(b, 0, n)
    ensures var x, m := RunRequest(b, tq, th, n), G.Tokenize(Sub(b, 0, n)).value;
            && k < |x.rest.headers.pairs|
            && !StringAt(x.rest.bytes, x.rest.headers.pairs[k].value, m.headers.Nth(k).value)
  {
    HeaderDelivered(b, tq, th, n, k);
    var l := Reading(b, tq, th, n);
    CleanStored(th, HeadersOf(b, n, l), k);
    TightAt(b, n, l, k);
  }

  lemma TightAt(b: seq<byte>, n: nat, l: Layout, k: nat)
    requires Received(b, n) && Locate(b, n) == Some(l) && NulFree(b, 0, n)
    requires k < G.Fields(Sub(b, l.eol + 2, n)).Len() && G.Fields(Sub(b, l.eol + 2, n)).Nth(k).tight
    requires G.Leave(Sub(b, l.eol + 2, n)).Char?
    ensures k < HeadersOf(b, n, l).Len() && HeadersOf(b, n, l).Nth(k).value < n
    ensures b[HeadersOf(b, n, l).Nth(k).value] != NUL
  {
    hide G.Fields, G.Leave, ScanHeaders, ScanStop, Locate;
    HeadersLenIs(b, n, l.eol + 2);
    HeadersNthIs(b, n, l.eol + 2, k);
    HeaderEnds(b, n, l.eol + 2, k);
    StopBehindLines(b, n, l.eol + 2, k);
    LeaveIs(b, n, l.eol + 2);
  }

  lemma {:induction false} NulFreeText(b: seq<byte>, p: nat, n: nat)
    requires n <= |b| && !Sub(b, p, n).Has(NUL)
    ensures NulFree(b, p, n)
    decreases if p < n then n - p else 0
  {
    if p < n {
      NulFreeText(b, p + 1, n);
    }
  }

  lemma {:induction false} QueryInside(b: seq<byte>, n: nat, q: nat, eop: nat, k: nat)
    requires Sealed(b, n) && q <= eop < n && k < ScanQuery(b, n, q, eop).Len()
    ensures ScanQuery(b, n, q, eop).Nth(k).key <= eop && ScanQuery(b, n, q, eop).Nth(k).value <= eop
    decreases eop - q
  {
    if k > 0 {
      QueryInside(b, n, ScanPair(b, n, q, eop).value.end + 1, eop, k - 1);
    }
  }

  lemma {:induction false} HeadersInside(b: seq<byte>, n: nat, p: nat, k: nat)
    requires Sealed(b, n) && p <= n + 1 && k < ScanHeaders(b, n, p).Len()
    ensures ScanHeaders(b, n, p).Nth(k).key <= n && ScanHeaders(b, n, p).Nth(k).value <= n
    decreases n + 1 - p
  {
    var line := ScanLine(b, n, p).value;
    if line.1.None? || k > 0 {
      HeadersInside(b, n, line.0 + 2, if line.1.None? then k else k - 1);
    }
  }

  lemma TargetInside(b: seq<byte>, t: Table, n: nat, p: nat, eop: nat, k: nat)
    requires Sealed(b, n) && p <= eop < n && Clean(t)
    ensures var q := TargetRun(b, t, n, p, eop).1.pairs;
            k < |q| ==> q[k].key <= n && q[k].value <= n
  {
    hide ScanQuery, QueryRun, Stored, StrChr, TargetRun;
    TargetRunTable(b, t, n, p, eop);
    CleanStored(t, ScanTarget(b, n, p, eop), k);
    var mark := ScanMark(b, n, p, eop);
    if mark.Some? && k < ScanTarget(b, n, p, eop).Len() {
      QueryInside(b, n, mark.value + 1, eop, k);
    }
  }

  lemma RestInside(b: seq<byte>, t: Table, n: nat, p: nat, k: nat)
    requires Sealed(b, n) && p <= n && Clean(t)
    ensures var r := RunRest(b, t, n, p);
            && Sealed(r.bytes, n) && r.cursor <= n + 1 && (r.protocol.Some? ==> r.protocol.value <= n)
            && (k < |r.headers.pairs| ==> r.headers.pairs[k].key <= n && r.headers.pairs[k].value <= n)
  {
    hide ScanHeaders, ScanProtocol, ScanStop, HeaderRun, Stored, StrChr;
    RestAsLocated(b, b, t, n, p);
    RestAt(b, b, t, n, p, n);
    var eol := ScanProtocol(b, n, p);
    if eol.Some? {
      CleanStored(t, ScanHeaders(b, n, eol.value + 2), k);
      if k < ScanHeaders(b, n, eol.value + 2).Len() {
        HeadersInside(b, n, eol.value + 2, k);
      }
    }
  }

  /** Accepted or not, every pointer the parser stores lies in the data or at its end, where a NUL
      stops it; the cursor passes the end by at most one byte behind the protocol, and by at most
      three behind a method. */
  lemma PointersInside(b: seq<byte>, tq: Table, th: Table, n: nat, k: nat)
    requires Received(b, n) && Clean(tq) && Clean(th)
    ensures var r := RunRequest(b, tq, th, n);
            && Sealed(r.rest.bytes, n) && r.rest.cursor <= n + 3 && (r.Ok() ==> r.rest.cursor <= n + 1)
            && (r.path.Some? ==> r.path.value < n) && (r.Ok() ==> r.rest.protocol.value <= n)
            && (k < |r.query.pairs| ==> r.query.pairs[k].key <= n && r.query.pairs[k].value <= n)
            && (k < |r.rest.headers.pairs| ==>
                  r.rest.headers.pairs[k].key <= n && r.rest.headers.pairs[k].value <= n)
  {
    hide TargetRun, RunRest, ScanProtocol, Locate;
    var m := ScanMethod(b, n);
    if m.Some? {
      var p := ScanSpaces(b, n, m.value.length);
      var eop := ScanPath(b, n, p);
      if eop.Some? {
        RequestUnfold(b, tq, th, n, p, eop.value);
        TargetInside(b, tq, n, p, eop.value, k);
        RestInside(TargetRun(b, tq, n, p, eop.value).0, th, n, eop.value + 1, k);
      }
    }
  }
}
