/** The in-place request parser: it walks one buffer with a cursor, stores NULs over delimiters and
    keeps pointers into the buffer as its strings. */
module HttpParser {
  import opened Wrappers
  import opened CStrings
  import opened KeyValue
  import opened HttpScan
  import opened HttpInPlace

  /** struct http_request. Null pointers are None. */
  class HttpRequest {
    var mask: int
    var path: Option<nat>
    var protocol: Option<nat>
    const query: Kv
    const headers: Kv

    /** A zeroed request over the two provided tables. */
    constructor (query: Kv, headers: Kv)
      ensures this.query == query && this.headers == headers
      ensures mask == 0 && path == None && protocol == None
    {
      this.query, this.headers := query, headers;
      mask, path, protocol := 0, None, None;
    }

    ghost predicate Valid()
      reads this, query, headers
    {
      && query != headers && query.pairs != headers.pairs
      && query.Valid() && !query.malloced
      && headers.Valid() && !headers.malloced
    }

    ghost function Repr(): set<object>
      reads this, query, headers
    {
      {this, query, query.pairs, headers, headers.pairs}
    }
  }

  method ParseMethod(req: HttpRequest, buf: array<byte>, n: nat) returns (ret: nat, cursor: nat)
    requires req.Valid() && n < buf.Length
    modifies req`mask
    ensures match ScanMethod(buf[..], n)
            case None => req.mask == old(req.mask) && ret == 0 && cursor == 0
            case Some(m) => req.mask == m.mask && ret == m.length && cursor == m.length
  {
    if n < 4 {
      return 0, 0;
    }
    var word := Pack(buf[0], buf[1], buf[2], buf[3]);
    var k := 0;
    while k < |METHODS|
      invariant 0 <= k <= |METHODS|
      invariant ScanMethod(buf[..], n) == FindMethod(word, k)
      invariant req.mask == old(req.mask)
    {
      if METHODS[k].strn == word {
        req.mask := METHODS[k].mask;
        return METHODS[k].length, METHODS[k].length;
      }
      k := k + 1;
    }
    return 0, 0;
  }

  method TrimSpaces(buf: array<byte>, n: nat, start: nat) returns (cursor: nat)
    requires n <= buf.Length
    ensures cursor == ScanSpaces(buf[..], n, start)
  {
    cursor := start;
    while cursor < n && buf[cursor] == ' '
      invariant start <= cursor
      invariant ScanSpaces(buf[..], n, start) == ScanSpaces(buf[..], n, cursor)
    {
      cursor := cursor + 1;
    }
  }

  /** kv_set_key_value on a table that cannot grow. */
  method Append(kv: Kv, key: nat, value: nat)
    requires kv.Valid() && !kv.malloced
    modifies kv, kv.pairs
    ensures kv.Valid() && !kv.malloced && kv.pairs == old(kv.pairs)
    ensures kv.Contents() == SetPair(old(kv.Contents()), KvPair(key, value), false)
  {
    var _ := SetKeyValue(kv, key, value, false);
  }

  /** The body of the query loop: one key=value&. */
  method ParsePair(kv: Kv, buf: array<byte>, n: nat, query: nat, eop: nat)
    returns (more: bool, next: nat)
    requires kv.Valid() && !kv.malloced
    requires Sealed(buf[..], n) && query < eop < n
    modifies kv, kv.pairs, buf
    ensures kv.Valid() && !kv.malloced && kv.pairs == old(kv.pairs)
    ensures Turn(buf[..], kv.Contents(), next, more) == old(QueryTurn(buf[..], kv.Contents(), n, query, eop))
  {
    hide StrChr, SetPair;
    ghost var s: seq<byte> := buf[..];
    SealTerminates(s, n, query);
    var separator := StrChr(buf[..], query, '=');
    if separator == None || separator.value >= eop {
      return false, query;
    }
    var sep := separator.value;
    buf[sep] := NUL;
    Append(kv, query, sep + 1);
    SealTerminates(s, n, sep + 1);
    StrChrForward(s, buf[..], sep + 1, '&');
    var end := StrChr(buf[..], sep + 1, '&');
    if end == None || end.value >= eop {
      assert buf[..] == Cut(s, sep);
      return false, query;
    }
    buf[end.value] := NUL;
    assert buf[..] == Cut(Cut(s, sep), end.value);
    return true, end.value + 1;
  }

  /** The query part of http_parse_path. */
  method ParseQuery(kv: Kv, buf: array<byte>, n: nat, start: nat, eop: nat)
    requires kv.Valid() && !kv.malloced
    requires Sealed(buf[..], n) && start <= eop < n
    modifies kv, kv.pairs, buf
    ensures kv.Valid() && !kv.malloced && kv.pairs == old(kv.pairs)
    ensures (buf[..], kv.Contents()) == old(QueryRun(buf[..], kv.Contents(), n, start, eop))
  {
    var query, more := start, true;
    while more && query < eop
      invariant start <= query <= eop
      invariant kv.Valid() && !kv.malloced && kv.pairs == old(kv.pairs)
      invariant Sealed(buf[..], n)
      invariant old(QueryRun(buf[..], kv.Contents(), n, start, eop)) ==
                if more then QueryRun(buf[..], kv.Contents(), n, query, eop) else (buf[..], kv.Contents())
      decreases eop - query, more
    {
      more, query := ParsePair(kv, buf, n, query, eop);
    }
  }

  /** The part of http_parse_path that writes: the query, then the end of the path. */
  method ParseTarget(kv: Kv, buf: array<byte>, n: nat, start: nat, eop: nat)
    requires kv.Valid() && !kv.malloced && Sealed(buf[..], n) && start <= eop < n
    modifies kv, kv.pairs, buf
    ensures kv.Valid() && !kv.malloced && kv.pairs == old(kv.pairs)
    ensures (buf[..], kv.Contents()) == old(TargetRun(buf[..], kv.Contents(), n, start, eop))
  {
    hide QueryRun, StrChr;
    ghost var s: seq<byte>, t := buf[..], kv.Contents();
    ghost var run := TargetRun(s, t, n, start, eop);
    SealTerminates(s, n, start);
    var mark := StrChr(buf[..], start, '?');
    if mark.Some? && mark.value < eop {
      buf[mark.value] := NUL;
      s := Cut(s, mark.value);
      assert buf[..] == s;
      ghost var q := QueryRun(s, t, n, mark.value + 1, eop);
      ParseQuery(kv, buf, n, mark.value + 1, eop);
      s, t := q.0, q.1;
    }
    assert buf[..] == s && kv.Contents() == t && run == (Cut(s, eop), t);
    buf[eop] := NUL;
    assert buf[..] == Cut(s, eop);
  }

  method ParsePath(req: HttpRequest, buf: array<byte>, n: nat, start: nat) returns (ret: nat, cursor: nat)
    requires req.Valid() && Received(buf[..], n) && start < buf.Length
    modifies req`path, req.query, req.query.pairs, buf
    ensures req.Valid() && req.query.pairs == old(req.query.pairs)
    ensures match old(RunPath(buf[..], req.query.Contents(), n, start))
            case NoPathRun =>
              && ret == 0 && cursor == start && req.path == old(req.path)
              && req.query.Contents() == old(req.query.Contents()) && buf[..] == old(buf[..])
            case PathRun(bytes, query, eop) =>
              && ret == cursor - start && cursor == eop + 1 && req.path == Some(start)
              && req.query.Contents() == query && buf[..] == bytes
  {
    ReceivedTerminates(buf[..], n, start);
    if SizeT(n - start) < 13 {
      return 0, start;
    }
    if buf[start] != '/' {
      return 0, start;
    }
    StrChrBefore(buf[..], start, ' ', n);
    var endOfPath := StrChr(buf[..], start, ' ');
    if endOfPath == None {
      return 0, start;
    }
    ParseTarget(req.query, buf, n, start, endOfPath.value);
    req.path := Some(start);
    cursor := endOfPath.value + 1;
    ret := cursor - start;
  }

  method ParseProtocol(req: HttpRequest, buf: array<byte>, n: nat, start: nat)
    returns (ret: nat, cursor: nat)
    requires Sealed(buf[..], n) && start <= n
    modifies req`protocol, buf
    ensures match old(ScanProtocol(buf[..], n, start))
            case None => ret == 0 && cursor == start && req.protocol == old(req.protocol) && buf[..] == old(buf[..])
            case Some(eol) =>
              && ret == cursor - start && cursor == eol + 2 && req.protocol == Some(start)
              && buf[..] == Cut(old(buf[..]), eol)
  {
    SealTerminates(buf[..], n, start);
    StrChrBefore(buf[..], start, '\r', n);
    if SizeT(n - start) < 11 {
      return 0, start;
    }
    var endOfLine := StrChr(buf[..], start, '\r');
    if endOfLine == None {
      return 0, start;
    }
    if Pack(buf[start], buf[start + 1], buf[start + 2], buf[start + 3]) != Pack('H', 'T', 'T', 'P') {
      return 0, start;
    }
    req.protocol := Some(start);
    ghost var s: seq<byte> := buf[..];
    buf[endOfLine.value] := NUL;
    assert buf[..] == Cut(s, endOfLine.value);
    cursor := endOfLine.value + 2;
    ret := cursor - start;
  }

  /** The body of the header loop: one line. */
  method ParseLine(kv: Kv, buf: array<byte>, n: nat, start: nat)
    returns (more: bool, next: nat)
    requires kv.Valid() && !kv.malloced
    requires Sealed(buf[..], n) && start < n
    modifies kv, kv.pairs, buf
    ensures kv.Valid() && !kv.malloced && kv.pairs == old(kv.pairs)
    ensures Turn(buf[..], kv.Contents(), next, more) == old(HeaderTurn(buf[..], kv.Contents(), n, start))
  {
    ghost var s: seq<byte> := buf[..];
    SealTerminates(s, n, start);
    StrChrBefore(s, start, '\r', n);
    var endOfLine := StrChr(buf[..], start, '\r');
    if endOfLine == None {
      return false, start;
    }
    var eol := endOfLine.value;
    if SizeT(eol - start) < 5 {
      return false, eol;
    }
    var colon := StrChr(buf[..], start, ':');
    if colon.Some? && colon.value < eol {
      buf[colon.value] := NUL;
      buf[eol] := NUL;
      assert buf[..] == Cut(Cut(s, colon.value), eol);
      Append(kv, start, colon.value + 2);
    }
    return true, eol + 2;
  }

  /** http_parse_headers, given the request's header table. */
  method ParseHeaders(kv: Kv, buf: array<byte>, n: nat, first: nat)
    returns (ret: nat, cursor: nat)
    requires kv.Valid() && !kv.malloced
    requires Sealed(buf[..], n) && first <= n + 1
    modifies kv, kv.pairs, buf
    ensures kv.Valid() && !kv.malloced && kv.pairs == old(kv.pairs)
    ensures Turn(buf[..], kv.Contents(), cursor, false) == old(HeaderRun(buf[..], kv.Contents(), n, first))
    ensures ret == cursor - first
  {
    var start, more := first, true;
    while more && start < n
      invariant first <= start <= n + 1
      invariant kv.Valid() && !kv.malloced && kv.pairs == old(kv.pairs)
      invariant Sealed(buf[..], n)
      invariant old(HeaderRun(buf[..], kv.Contents(), n, first)) ==
                if more then HeaderRun(buf[..], kv.Contents(), n, start) else Turn(buf[..], kv.Contents(), start, false)
      decreases n + 1 - start, more
    {
      more, start := ParseLine(kv, buf, n, start);
    }
    ret := start - first;
    cursor := start;
  }

  /** The protocol and header stages of http_parse_request. */
  method ParseRest(req: HttpRequest, buf: array<byte>, n: nat, start: nat)
    returns (ok: bool, cursor: nat)
    requires req.headers.Valid() && !req.headers.malloced && req.protocol == None
    requires Sealed(buf[..], n) && start <= n
    modifies req`protocol, req.headers, req.headers.pairs, buf
    ensures req.headers.Valid() && !req.headers.malloced && req.headers.pairs == old(req.headers.pairs)
    ensures Rest(req.protocol, req.headers.Contents(), buf[..], cursor) ==
            old(RunRest(buf[..], req.headers.Contents(), n, start))
    ensures ok == req.protocol.Some?
  {
    var _, c := ParseProtocol(req, buf, n, start);
    if req.protocol == None {
      return false, c;
    }
    var _, c' := ParseHeaders(req.headers, buf, n, c);
    return true, c';
  }

  /** http_parse_request. Beside its result it returns where the cursor was left. */
  method ParseRequest(req: HttpRequest, buf: array<byte>, n: nat) returns (ok: bool, cursor: nat)
    requires req.Valid() && Received(buf[..], n)
    requires req.mask == 0 && req.path == None && req.protocol == None
    modifies req, req.query, req.query.pairs, req.headers, req.headers.pairs, buf
    ensures req.Valid() && req.query.pairs == old(req.query.pairs) && req.headers.pairs == old(req.headers.pairs)
    ensures Parsed(req.mask, req.path, req.query.Contents(), Rest(req.protocol, req.headers.Contents(), buf[..], cursor)) ==
            old(RunRequest(buf[..], req.query.Contents(), req.headers.Contents(), n))
    ensures ok == req.protocol.Some?
  {
    hide RunRest, TargetRun, ScanMethod, ScanSpaces, ScanPath;
    var ret, c := ParseMethod(req, buf, n);
    if req.mask == 0 {
      return false, c;
    }
    c := TrimSpaces(buf, n, c);
    ret, c := ParsePath(req, buf, n, c);
    if req.path == None {
      return false, c;
    }
    ok, cursor := ParseRest(req, buf, n, c);
  }
}
