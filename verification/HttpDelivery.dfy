/** What an accepted request's pointers point at: the layout of the delimiters, the bytes that are
    left, and the strings they hold, during the parse and after it. */
module HttpDelivery {
  import opened Wrappers
  import opened CStrings
  import opened KeyValue
  import opened HttpScan
  import opened HttpInPlace
  import opened HttpConservation

  /** Where the three stages of an accepted request end. */
  datatype Layout = Layout(mask: int, path: nat, eop: nat, eol: nat)

  ghost function Locate(b: seq<byte>, n: nat): (r: Option<Layout>)
    requires Received(b, n)
    ensures r.Some? ==> r.value.path < r.value.eop < r.value.eol < n
  {
    var m := ScanMethod(b, n);
    if m.None? then None else
      var p := ScanSpaces(b, n, m.value.length);
      var eop := ScanPath(b, n, p);
      if eop.None? then None else
        var eol := ScanProtocol(b, n, eop.value + 1);
        if eol.None? then None else Some(Layout(m.value.mask, p, eop.value, eol.value))
  }

  /** The byte at i is stored over by the path stage. */
  ghost predicate TargetCuts(b: seq<byte>, n: nat, p: nat, eop: nat, i: nat)
    requires Sealed(b, n) && p <= eop < n
  {
    i == eop || ScanMark(b, n, p, eop) == Some(i) || ScanTarget(b, n, p, eop).Cuts(i)
  }

  lemma TargetRunAt(b: seq<byte>, t: Table, n: nat, p: nat, eop: nat, i: nat)
    requires Sealed(b, n) && p <= eop < n && i < |b|
    ensures TargetRun(b, t, n, p, eop).0[i] == if TargetCuts(b, n, p, eop, i) then NUL else b[i]
  {
    hide ScanQuery, QueryRun, ScanMark;
    match ScanMark(b, n, p, eop)
    case None =>
    case Some(mark) =>
      var s := Cut(b, mark);
      var run := QueryRun(s, t, n, mark + 1, eop);
      assert TargetRun(b, t, n, p, eop).0 == Cut(run.0, eop);
      if i != eop {
        QueryRunAt(b, s, t, n, mark + 1, eop, i);
        assert s[i] == if i == mark then NUL else b[i];
      }
  }

  lemma TargetRunTable(b: seq<byte>, t: Table, n: nat, p: nat, eop: nat)
    requires Sealed(b, n) && p <= eop < n
    ensures TargetRun(b, t, n, p, eop).1 == Stored(t, ScanTarget(b, n, p, eop))
  {
    hide ScanQuery, QueryRun, StrChr;
    match ScanMark(b, n, p, eop)
    case None =>
    case Some(mark) =>
      QueryRunTable(b, Cut(b, mark), t, n, mark + 1, eop);
  }

  ghost predicate NulFree(b: seq<byte>, from: nat, to: nat)
    requires to <= |b|
  {
    forall j :: from <= j < to ==> b[j] != NUL
  }

  /** The path stage only stores over delimiters of the target. */
  lemma TargetCutsAre(b: seq<byte>, n: nat, p: nat, eop: nat, i: nat)
    requires Sealed(b, n) && p <= eop < n && NulFree(b, p, eop) && TargetCuts(b, n, p, eop, i)
    ensures p <= i <= eop && (i == eop || b[i] == '?' || b[i] == '=' || b[i] == '&')
  {
    var mark := ScanMark(b, n, p, eop);
    if mark.Some? && i != eop && i != mark.value {
      QueryCutsAre(b, n, mark.value + 1, eop, i);
    }
  }

  lemma TargetRunForward(b: seq<byte>, t: Table, n: nat, p: nat, eop: nat)
    requires Sealed(b, n) && p <= eop < n && NulFree(b, p, eop)
    ensures SameFrom(b, TargetRun(b, t, n, p, eop).0, eop + 1)
  {
    forall i | eop + 1 <= i < |b|
      ensures b[i] == TargetRun(b, t, n, p, eop).0[i]
    {
      TargetRunAt(b, t, n, p, eop, i);
      if TargetCuts(b, n, p, eop, i) {
        TargetCutsAre(b, n, p, eop, i);
      }
    }
  }

  lemma ScanPathOk(b: seq<byte>, n: nat, p: nat)
    requires Received(b, n) && p < |b| && ScanPath(b, n, p).Some?
    ensures var eop := ScanPath(b, n, p).value;
            && p < eop < n && b[p] == '/' && b[eop] == ' ' && NulFree(b, p, eop)
            && forall j :: p <= j < eop ==> b[j] != ' '
  {
    ReceivedTerminates(b, n, p);
    StrChrSpec(b, p, ' ');
  }

  lemma ScanProtocolOk(b: seq<byte>, n: nat, p: nat)
    requires Sealed(b, n) && p <= n && ScanProtocol(b, n, p).Some?
    ensures var eol := ScanProtocol(b, n, p).value;
            && p <= eol < n && b[eol] == '\r' && NulFree(b, p, eol)
            && forall j :: p <= j < eol ==> b[j] != '\r'
  {
    SealTerminates(b, n, p);
    StrChrSpec(b, p, '\r');
  }

  lemma ProtocolForward(b: seq<byte>, s: seq<byte>, n: nat, p: nat)
    requires Sealed(b, n) && Sealed(s, n) && SameFrom(b, s, p) && p <= n
    ensures ScanProtocol(b, n, p) == ScanProtocol(s, n, p)
  {
    SealTerminates(b, n, p);
    StrChrForward(b, s, p, '\r');
  }

  /** What the last two stages leave, read off the bytes as received. */
  lemma RestAsLocated(b: seq<byte>, s: seq<byte>, t: Table, n: nat, p: nat)
    requires Sealed(b, n) && Sealed(s, n) && SameFrom(b, s, p) && p <= n
    ensures var rest := RunRest(s, t, n, p);
            match ScanProtocol(b, n, p)
            case None => rest == Rest(None, t, s, p)
            case Some(eol) =>
              && rest.protocol == Some(p) && rest.headers == Stored(t, ScanHeaders(b, n, eol + 2))
              && rest.cursor == ScanStop(b, n, eol + 2)
  {
    hide ScanProtocol, ScanHeaders, ScanStop, HeaderRun, Stored;
    ProtocolForward(b, s, n, p);
    var eol := ScanProtocol(b, n, p);
    if eol.Some? {
      HeaderRunTable(b, Cut(s, eol.value), t, n, eol.value + 2);
      HeaderRunStop(b, Cut(s, eol.value), t, n, eol.value + 2);
    }
  }

  lemma RestAt(b: seq<byte>, s: seq<byte>, t: Table, n: nat, p: nat, i: nat)
    requires Sealed(b, n) && Sealed(s, n) && SameFrom(b, s, p) && p <= n && i < |b|
    ensures RunRest(s, t, n, p).bytes[i] ==
            match ScanProtocol(b, n, p)
            case None => s[i]
            case Some(eol) => if i == eol || ScanHeaders(b, n, eol + 2).Cuts(i) then NUL else s[i]
  {
    hide ScanProtocol, ScanHeaders, HeaderRun;
    ProtocolForward(b, s, n, p);
    var eol := ScanProtocol(b, n, p);
    if eol.Some? {
      HeaderRunAt(b, Cut(s, eol.value), t, n, eol.value + 2, i);
    }
  }

  ghost function HeadersOf(b: seq<byte>, n: nat, l: Layout): Pairs
    requires Received(b, n) && Locate(b, n) == Some(l)
  {
    ScanHeaders(b, n, l.eol + 2)
  }

  ghost function QueryOf(b: seq<byte>, n: nat, l: Layout): Pairs
    requires Received(b, n) && Locate(b, n) == Some(l)
  {
    ScanTarget(b, n, l.path, l.eop)
  }

  /** The byte at i is one of the delimiters an accepted request is cut at. */
  ghost predicate Delimits(b: seq<byte>, n: nat, l: Layout, i: nat)
    requires Received(b, n) && Locate(b, n) == Some(l)
  {
    TargetCuts(b, n, l.path, l.eop, i) || i == l.eol || HeadersOf(b, n, l).Cuts(i)
  }

  /** The parse up to the end of the path stage. */
  lemma RequestUnfold(b: seq<byte>, tq: Table, th: Table, n: nat, p: nat, eop: nat)
    requires Received(b, n) && ScanMethod(b, n).Some?
    requires p == ScanSpaces(b, n, ScanMethod(b, n).value.length) && ScanPath(b, n, p) == Some(eop)
    ensures var run := TargetRun(b, tq, n, p, eop);
            RunRequest(b, tq, th, n) ==
            Parsed(ScanMethod(b, n).value.mask, Some(p), run.1, RunRest(run.0, th, n, eop + 1))
    ensures Locate(b, n) ==
            match ScanProtocol(b, n, eop + 1)
            case None => None
            case Some(eol) => Some(Layout(ScanMethod(b, n).value.mask, p, eop, eol))
  {
    hide ScanMethod, ScanSpaces, ScanPath, TargetRun, RunRest, ScanProtocol;
  }

  /** A request with a layout is accepted, and its pointers are taken from the layout. */
  lemma LocatedParse(b: seq<byte>, tq: Table, th: Table, n: nat, l: Layout)
    requires Received(b, n) && Locate(b, n) == Some(l)
    ensures var r := RunRequest(b, tq, th, n);
            && r.Ok() && r.mask == l.mask && r.path == Some(l.path) && r.query == Stored(tq, QueryOf(b, n, l))
            && r.rest.protocol == Some(l.eop + 1) && r.rest.headers == Stored(th, HeadersOf(b, n, l))
            && r.rest.cursor == ScanStop(b, n, l.eol + 2)
  {
    hide TargetRun, RunRest, ScanProtocol, ScanTarget, ScanHeaders, ScanStop, Stored;
    RequestUnfold(b, tq, th, n, l.path, l.eop);
    ScanPathOk(b, n, l.path);
    TargetRunForward(b, tq, n, l.path, l.eop);
    TargetRunTable(b, tq, n, l.path, l.eop);
    RestAsLocated(b, TargetRun(b, tq, n, l.path, l.eop).0, th, n, l.eop + 1);
  }

  /** No other request is accepted. */
  lemma UnlocatedParse(b: seq<byte>, tq: Table, th: Table, n: nat)
    requires Received(b, n) && Locate(b, n) == None
    ensures !RunRequest(b, tq, th, n).Ok()
  {
    var m := ScanMethod(b, n);
    if m.Some? {
      var p := ScanSpaces(b, n, m.value.length);
      var eop := ScanPath(b, n, p);
      if eop.Some? {
        RequestUnfold(b, tq, th, n, p, eop.value);
        ScanPathOk(b, n, p);
        TargetRunForward(b, tq, n, p, eop.value);
        RestAsLocated(b, TargetRun(b, tq, n, p, eop.value).0, th, n, eop.value + 1);
      }
    }
  }

  lemma LayoutOk(b: seq<byte>, n: nat, l: Layout)
    requires Received(b, n) && Locate(b, n) == Some(l)
    ensures b[l.path] == '/' && b[l.eop] == ' ' && b[l.eol] == '\r'
    ensures NulFree(b, l.path, l.eop) && NulFree(b, l.eop + 1, l.eol)
    ensures forall j :: l.eop < j < l.eol ==> b[j] != '\r'
  {
    ScanPathOk(b, n, l.path);
    ScanProtocolOk(b, n, l.eop + 1);
  }

  /** Each NUL an accepted request receives lands on a question mark, equals sign, ampersand, space,
      colon or CR that was located there, each kind in its own stretch of the request. */
  lemma DelimitersAre(b: seq<byte>, n: nat, l: Layout, i: nat)
    requires Received(b, n) && Locate(b, n) == Some(l) && Delimits(b, n, l, i)
    ensures l.path <= i < n
    ensures i <= l.eop ==> TargetCuts(b, n, l.path, l.eop, i) && (i == l.eop || b[i] == '?' || b[i] == '=' || b[i] == '&')
    ensures l.eop < i <= l.eol ==> i == l.eol
    ensures l.eol < i ==> HeadersOf(b, n, l).Cuts(i) && (b[i] == ':' || b[i] == '\r')
  {
    hide ScanQuery, ScanHeaders, Locate, StrChr, ScanMark;
    LayoutOk(b, n, l);
    if TargetCuts(b, n, l.path, l.eop, i) {
      TargetCutsAre(b, n, l.path, l.eop, i);
    } else if HeadersOf(b, n, l).Cuts(i) {
      HeaderCutsAre(b, n, l.eol + 2, i);
    }
  }

  /** The last two stages of an accepted request run on what the path stage left. */
  lemma RestOf(b: seq<byte>, tq: Table, th: Table, n: nat, l: Layout)
    requires Received(b, n) && Locate(b, n) == Some(l)
    ensures var s := TargetRun(b, tq, n, l.path, l.eop).0;
            && Sealed(s, n) && SameFrom(b, s, l.eop + 1) && ScanProtocol(b, n, l.eop + 1) == Some(l.eol)
            && RunRequest(b, tq, th, n).rest == RunRest(s, th, n, l.eop + 1)
  {
    RequestUnfold(b, tq, th, n, l.path, l.eop);
    LayoutOk(b, n, l);
    TargetRunForward(b, tq, n, l.path, l.eop);
  }

  /** Conservation: an accepted request is left with NULs at its delimiters and is otherwise the
      request that was received. */
  lemma BytesLeft(b: seq<byte>, tq: Table, th: Table, n: nat, l: Layout, i: nat)
    requires Received(b, n) && Locate(b, n) == Some(l) && i < |b|
    ensures |RunRequest(b, tq, th, n).rest.bytes| == |b|
    ensures RunRequest(b, tq, th, n).rest.bytes[i] == if Delimits(b, n, l, i) then NUL else b[i]
  {
    hide TargetRun, RunRequest, RunRest, Locate, ScanProtocol, ScanHeaders, TargetCuts;
    var s := TargetRun(b, tq, n, l.path, l.eop).0;
    RestOf(b, tq, th, n, l);
    TargetRunAt(b, tq, n, l.path, l.eop, i);
    RestAt(b, s, th, n, l.eop + 1, i);
  }

  /** Conservation for every request, accepted or not: whatever byte changed was a delimiter inside
      the data and is a NUL now. */
  lemma OnlyDelimitersChange(b: seq<byte>, tq: Table, th: Table, n: nat, i: nat)
    requires Received(b, n) && i < |b|
    ensures |RunRequest(b, tq, th, n).rest.bytes| == |b|
    ensures RunRequest(b, tq, th, n).rest.bytes[i] != b[i] ==>
              && RunRequest(b, tq, th, n).rest.bytes[i] == NUL && i < n
              && b[i] in {'?', '=', '&', ' ', ':', '\r'}
  {
    hide ScanMethod, ScanSpaces, ScanPath, TargetRun, RunRest, ScanProtocol, Delimits, TargetCuts;
    var m := ScanMethod(b, n);
    if m.Some? {
      var p := ScanSpaces(b, n, m.value.length);
      var eop := ScanPath(b, n, p);
      if eop.Some? {
        RequestUnfold(b, tq, th, n, p, eop.value);
        ScanPathOk(b, n, p);
        if Locate(b, n).Some? {
          var l := Locate(b, n).value;
          LayoutOk(b, n, l);
          BytesLeft(b, tq, th, n, l, i);
          if Delimits(b, n, l, i) {
            DelimitersAre(b, n, l, i);
          }
        } else {
          TargetRunForward(b, tq, n, p, eop.value);
          TargetRunAt(b, tq, n, p, eop.value, i);
          RestAsLocated(b, TargetRun(b, tq, n, p, eop.value).0, th, n, eop.value + 1);
          if TargetCuts(b, n, p, eop.value, i) {
            TargetCutsAre(b, n, p, eop.value, i);
          }
        }
      }
    }
  }

  /** A buffer in which some of the delimiters have been stored over: any moment of the parse. */
  ghost predicate PartlyCut(b: seq<byte>, n: nat, l: Layout, t: seq<byte>)
    requires Received(b, n) && Locate(b, n) == Some(l)
  {
    |t| == |b| && forall i :: 0 <= i < |b| ==> t[i] == b[i] || (t[i] == NUL && Delimits(b, n, l, i))
  }

  /** A stretch without delimiters reads the same at every moment from the one its end is cut. */
  lemma StretchIs(b: seq<byte>, n: nat, l: Layout, t: seq<byte>, p: nat, e: nat)
    requires Received(b, n) && Locate(b, n) == Some(l) && PartlyCut(b, n, l, t)
    requires p <= e < |b| && t[e] == NUL && NulFree(b, p, e)
    requires forall j :: p <= j < e ==> !Delimits(b, n, l, j)
    ensures StringAt(t, p, Sub(b, p, e))
  {
    StringIn(b, t, p, e);
  }

  /** The path: up to the question mark, or to the space. */
  lemma PathIs(b: seq<byte>, n: nat, l: Layout, t: seq<byte>)
    requires Received(b, n) && Locate(b, n) == Some(l) && PartlyCut(b, n, l, t)
    ensures var mark := ScanMark(b, n, l.path, l.eop);
            var e := if mark.Some? then mark.value else l.eop;
            t[e] == NUL ==> StringAt(t, l.path, Sub(b, l.path, e))
  {
    hide Locate, ScanMark, Delimits, StringAt, Sub, PartlyCut;
    LayoutOk(b, n, l);
    var mark := ScanMark(b, n, l.path, l.eop);
    var e := if mark.Some? then mark.value else l.eop;
    forall j | l.path <= j < e
      ensures !Delimits(b, n, l, j)
    {
      PathUncut(b, n, l, j);
    }
    CutLen(b, n, l, t);
    if t[e] == NUL {
      StretchIs(b, n, l, t, l.path, e);
    }
  }

  lemma CutLen(b: seq<byte>, n: nat, l: Layout, t: seq<byte>)
    requires Received(b, n) && Locate(b, n) == Some(l) && PartlyCut(b, n, l, t)
    ensures |t| == |b|
  {
  }

  /** Nothing is cut before the path's end. */
  lemma PathUncut(b: seq<byte>, n: nat, l: Layout, j: nat)
    requires Received(b, n) && Locate(b, n) == Some(l)
    requires var mark := ScanMark(b, n, l.path, l.eop); l.path <= j < if mark.Some? then mark.value else l.eop
    ensures !Delimits(b, n, l, j)
  {
    hide Locate, ScanMark, ScanQuery, ScanHeaders;
    LayoutOk(b, n, l);
    if Delimits(b, n, l, j) {
      DelimitersAre(b, n, l, j);
      var mark := ScanMark(b, n, l.path, l.eop);
      if mark.Some? {
        QueryCutsAre(b, n, mark.value + 1, l.eop, j);
      }
    }
  }

  lemma ProtocolIs(b: seq<byte>, n: nat, l: Layout, t: seq<byte>)
    requires Received(b, n) && Locate(b, n) == Some(l) && PartlyCut(b, n, l, t) && t[l.eol] == NUL
    ensures StringAt(t, l.eop + 1, Sub(b, l.eop + 1, l.eol))
  {
    hide TargetCuts, Locate, ScanHeaders, StringAt, Sub;
    LayoutOk(b, n, l);
    forall j | l.eop + 1 <= j < l.eol
      ensures !Delimits(b, n, l, j)
    {
      if Delimits(b, n, l, j) {
        DelimitersAre(b, n, l, j);
      }
    }
    StretchIs(b, n, l, t, l.eop + 1, l.eol);
  }

  /** Where the k-th query pair lies, and that nothing but its own delimiters is cut in it. */
  lemma QueryPairAt(b: seq<byte>, n: nat, l: Layout, k: nat)
    requires Received(b, n) && Locate(b, n) == Some(l) && k < QueryOf(b, n, l).Len()
    ensures var x := QueryOf(b, n, l).Nth(k);
            && l.path < x.key <= x.sep < x.value <= x.end <= l.eop && x.value == x.sep + 1
            && Delimits(b, n, l, x.sep) && Delimits(b, n, l, x.end) && NulFree(b, x.key, x.end)
            && forall j :: x.key <= j < x.end && j != x.sep ==> !Delimits(b, n, l, j)
  {
    hide ScanMark, ScanQuery, Locate, Tidy;
    LayoutOk(b, n, l);
    var mark := ScanMark(b, n, l.path, l.eop).value;
    var query := QueryOf(b, n, l);
    var x := query.Nth(k);
    QueryTidy(b, n, mark + 1, l.eop);
    TidyNth(b, query, mark + 1, l.eop, '=', k);
    QueryEnds(b, n, mark + 1, l.eop, k);
    Apart(b, query, mark + 1, l.eop, '=', k, x.sep);
    forall j | x.key <= j < x.end && j != x.sep
      ensures !Delimits(b, n, l, j)
    {
      Apart(b, query, mark + 1, l.eop, '=', k, j);
      if Delimits(b, n, l, j) {
        DelimitersAre(b, n, l, j);
      }
    }
  }

  /** The k-th query pair: its key from the moment its equals sign is cut, its value from the moment
      its end is. */
  lemma QueryPairIs(b: seq<byte>, n: nat, l: Layout, t: seq<byte>, k: nat)
    requires Received(b, n) && Locate(b, n) == Some(l) && PartlyCut(b, n, l, t) && k < QueryOf(b, n, l).Len()
    ensures var x := QueryOf(b, n, l).Nth(k);
            && x.key <= x.sep < x.value <= x.end < n
            && (t[x.sep] == NUL ==> StringAt(t, x.key, Sub(b, x.key, x.sep)))
            && (t[x.end] == NUL ==> StringAt(t, x.value, Sub(b, x.value, x.end)))
  {
    QueryPairAt(b, n, l, k);
    var x := QueryOf(b, n, l).Nth(k);
    if t[x.sep] == NUL {
      StretchIs(b, n, l, t, x.key, x.sep);
    }
    if t[x.end] == NUL {
      StretchIs(b, n, l, t, x.value, x.end);
    }
  }

  /** Where the k-th header pair lies, and that nothing but its own delimiters is cut in it. */
  lemma HeaderPairAt(b: seq<byte>, n: nat, l: Layout, k: nat)
    requires Received(b, n) && Locate(b, n) == Some(l) && k < HeadersOf(b, n, l).Len()
    ensures var x := HeadersOf(b, n, l).Nth(k);
            && l.eol + 2 <= x.key <= x.sep < x.end < n && x.value == x.sep + 2 && b[x.end] == '\r'
            && Delimits(b, n, l, x.sep) && Delimits(b, n, l, x.end) && NulFree(b, x.key, x.end)
            && forall j :: x.key <= j < x.end && j != x.sep ==> !Delimits(b, n, l, j)
  {
    hide ScanHeaders, Tidy, Locate, TargetCuts;
    var headers := HeadersOf(b, n, l);
    var x := headers.Nth(k);
    HeadersTidy(b, n, l.eol + 2);
    TidyNth(b, headers, l.eol + 2, n, ':', k);
    HeaderEnds(b, n, l.eol + 2, k);
    Apart(b, headers, l.eol + 2, n, ':', k, x.sep);
    forall j | x.key <= j < x.end && j != x.sep
      ensures !Delimits(b, n, l, j)
    {
      Apart(b, headers, l.eol + 2, n, ':', k, j);
      if Delimits(b, n, l, j) {
        DelimitersAre(b, n, l, j);
      }
    }
  }

  /** The k-th header pair. Its value starts two bytes behind the colon; when that is behind the CR,
      nothing is said about the value here. */
  lemma HeaderPairIs(b: seq<byte>, n: nat, l: Layout, t: seq<byte>, k: nat)
    requires Received(b, n) && Locate(b, n) == Some(l) && PartlyCut(b, n, l, t) && k < HeadersOf(b, n, l).Len()
    ensures var x := HeadersOf(b, n, l).Nth(k);
            && x.key <= x.sep < x.end < n && x.value == x.sep + 2
            && (t[x.sep] == NUL ==> StringAt(t, x.key, Sub(b, x.key, x.sep)))
            && (t[x.end] == NUL && x.value <= x.end ==>
                  StringAt(t, x.value, Sub(b, x.value, x.end)))
  {
    HeaderPairAt(b, n, l, k);
    var x := HeadersOf(b, n, l).Nth(k);
    if t[x.sep] == NUL {
      StretchIs(b, n, l, t, x.key, x.sep);
    }
    if t[x.end] == NUL && x.value <= x.end {
      StretchIs(b, n, l, t, x.value, x.end);
    }
  }
}
