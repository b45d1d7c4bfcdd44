/** The parser on values: the same stages as functions from the bytes and tables before to the bytes
    and tables after. The methods of HttpParser compute these functions on the heap. */
module HttpInPlace {
  import opened Wrappers
  import opened CStrings
  import opened KeyValue
  import opened HttpScan

  /** One turn of a parser loop: the bytes, the table and the cursor it leaves, and whether the
      loop goes on. */
  datatype Turn = Turn(bytes: seq<byte>, table: Table, at: nat, more: bool)

  /** One key=value of the query that ends at eop. */
  ghost function QueryTurn(s: seq<byte>, t: Table, n: nat, q: nat, eop: nat): (r: Turn)
    requires Sealed(s, n) && q < eop < n
    ensures |r.bytes| == |s| && Sealed(r.bytes, n) && (r.more ==> q < r.at <= eop)
  {
    match ScanPair(s, n, q, eop)
    case None => Turn(s, t, q, false)
    case Some(p) =>
      var t1 := SetPair(t, KvPair(p.key, p.value), false);
      if p.end < eop then Turn(Cut(Cut(s, p.sep), p.end), t1, p.end + 1, true)
      else Turn(Cut(s, p.sep), t1, q, false)
  }

  ghost function QueryRun(s: seq<byte>, t: Table, n: nat, q: nat, eop: nat): (r: (seq<byte>, Table))
    requires Sealed(s, n) && q <= eop < n
    ensures |r.0| == |s| && Sealed(r.0, n)
    decreases eop - q
  {
    if q == eop then (s, t) else
      var turn := QueryTurn(s, t, n, q, eop);
      if turn.more then QueryRun(turn.bytes, turn.table, n, turn.at, eop) else (turn.bytes, turn.table)
  }

  /** The target between p and the space at eop: its query is taken apart, then it is closed. */
  ghost function TargetRun(b: seq<byte>, t: Table, n: nat, p: nat, eop: nat): (r: (seq<byte>, Table))
    requires Sealed(b, n) && p <= eop < n
    ensures |r.0| == |b| && Sealed(r.0, n)
  {
    match ScanMark(b, n, p, eop)
    case None => (Cut(b, eop), t)
    case Some(mark) =>
      var run := QueryRun(Cut(b, mark), t, n, mark + 1, eop);
      (Cut(run.0, eop), run.1)
  }

  datatype PathRun = NoPathRun | PathRun(bytes: seq<byte>, query: Table, eop: nat)

  ghost function RunPath(b: seq<byte>, t: Table, n: nat, p: nat): (r: PathRun)
    requires Received(b, n) && p < |b|
    ensures r.PathRun? ==> p <= r.eop < n && |r.bytes| == |b| && Sealed(r.bytes, n)
  {
    match ScanPath(b, n, p)
    case None => NoPathRun
    case Some(eop) =>
      var run := TargetRun(b, t, n, p, eop);
      PathRun(run.0, run.1, eop)
  }

  /** One header line from p. */
  ghost function HeaderTurn(s: seq<byte>, t: Table, n: nat, p: nat): (r: Turn)
    requires Sealed(s, n) && p < n
    ensures |r.bytes| == |s| && Sealed(r.bytes, n) && p <= r.at <= n + 1 && (r.more ==> p < r.at)
  {
    match ScanLine(s, n, p)
    case None => Turn(s, t, ScanEnd(s, n, p), false)
    case Some(line) =>
      if line.1.None? then Turn(s, t, line.0 + 2, true)
      else Turn(Cut(Cut(s, line.1.value), line.0), SetPair(t, KvPair(p, line.1.value + 2), false), line.0 + 2, true)
  }

  ghost function HeaderRun(s: seq<byte>, t: Table, n: nat, p: nat): (r: Turn)
    requires Sealed(s, n) && p <= n + 1
    ensures |r.bytes| == |s| && p <= r.at <= n + 1 && !r.more
    decreases n + 1 - p
  {
    if p >= n then Turn(s, t, p, false) else
      var turn := HeaderTurn(s, t, n, p);
      if turn.more then HeaderRun(turn.bytes, turn.table, n, turn.at) else turn
  }

  /** What the protocol and header stages leave behind. */
  datatype Rest = Rest(protocol: Option<nat>, headers: Table, bytes: seq<byte>, cursor: nat)

  ghost function RunRest(s: seq<byte>, t: Table, n: nat, p: nat): (r: Rest)
    requires Sealed(s, n) && p <= n
    ensures |r.bytes| == |s| && p <= r.cursor <= n + 1
  {
    match ScanProtocol(s, n, p)
    case None => Rest(None, t, s, p)
    case Some(eol) =>
      var run := HeaderRun(Cut(s, eol), t, n, eol + 2);
      Rest(Some(p), run.table, run.bytes, run.at)
  }

  /** What http_parse_request leaves behind, given a request whose pointers are null. */
  datatype Parsed = Parsed(mask: int, path: Option<nat>, query: Table, rest: Rest) {
    predicate Ok() { rest.protocol.Some? }
  }

  ghost function RunRequest(b: seq<byte>, tq: Table, th: Table, n: nat): (r: Parsed)
    requires Received(b, n)
    ensures |r.rest.bytes| == |b|
  {
    var m := ScanMethod(b, n);
    if m.None? then Parsed(0, None, tq, Rest(None, th, b, 0)) else
      var p := ScanSpaces(b, n, m.value.length);
      match RunPath(b, tq, n, p)
      case NoPathRun => Parsed(m.value.mask, None, tq, Rest(None, th, b, p))
      case PathRun(s, tq1, eop) => Parsed(m.value.mask, Some(p), tq1, RunRest(s, th, n, eop + 1))
  }
}
