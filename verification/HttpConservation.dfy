/** What the parser writes: NULs over located delimiters and nothing else, and never inside a string
    it has already handed out. */
module HttpConservation {
  import opened CStrings
  import opened KeyValue
  import opened HttpScan
  import opened HttpInPlace

  /** A table after the located pairs were offered to it one by one. */
  function Stored(t: Table, pairs: Pairs): Table
    decreases pairs
  {
    match pairs
    case Nil => t
    case Cons(p, more) => Stored(SetPair(t, KvPair(p.key, p.value), false), more)
  }

  /** Scans only look forward, so NULs stored behind the cursor do not change what is found. */
  lemma ScanPairForward(b: seq<byte>, c: seq<byte>, n: nat, q: nat, eop: nat)
    requires Sealed(b, n) && Sealed(c, n) && SameFrom(b, c, q) && q < eop < n
    ensures ScanPair(b, n, q, eop) == ScanPair(c, n, q, eop)
  {
    SealTerminates(b, n, q);
    StrChrForward(b, c, q, '=');
    var sep := StrChr(b, q, '=');
    if sep.Some? && sep.value < eop {
      SealTerminates(b, n, sep.value + 1);
      StrChrForward(b, c, sep.value + 1, '&');
    }
  }

  lemma ScanLineForward(b: seq<byte>, c: seq<byte>, n: nat, p: nat)
    requires Sealed(b, n) && Sealed(c, n) && SameFrom(b, c, p) && p < n
    ensures ScanLine(b, n, p) == ScanLine(c, n, p) && ScanEnd(b, n, p) == ScanEnd(c, n, p)
  {
    SealTerminates(b, n, p);
    StrChrForward(b, c, p, '\r');
    StrChrForward(b, c, p, ':');
  }

  /** The query loop cuts exactly at the delimiters of the located pairs; the byte that ends the
      path is left to the path stage. */
  lemma {:induction false} QueryRunAt(b: seq<byte>, s: seq<byte>, t: Table, n: nat, q: nat, eop: nat, i: nat)
    requires Sealed(b, n) && Sealed(s, n) && SameFrom(b, s, q) && q <= eop < n
    requires i < |s| && i != eop
    ensures QueryRun(s, t, n, q, eop).0[i] == if ScanQuery(b, n, q, eop).Cuts(i) then NUL else s[i]
    decreases eop - q
  {
    hide ScanPair, StrChr;
    if q < eop {
      ScanPairForward(b, s, n, q, eop);
      var turn := QueryTurn(s, t, n, q, eop);
      if turn.more {
        QueryRunAt(b, turn.bytes, turn.table, n, turn.at, eop, i);
      }
    }
  }

  /** The query loop offers exactly the located pairs, in order. */
  lemma {:induction false} QueryRunTable(b: seq<byte>, s: seq<byte>, t: Table, n: nat, q: nat, eop: nat)
    requires Sealed(b, n) && Sealed(s, n) && SameFrom(b, s, q) && q <= eop < n
    ensures QueryRun(s, t, n, q, eop).1 == Stored(t, ScanQuery(b, n, q, eop))
    decreases eop - q
  {
    hide ScanPair, StrChr, SetPair;
    if q < eop {
      ScanPairForward(b, s, n, q, eop);
      var turn := QueryTurn(s, t, n, q, eop);
      if turn.more {
        QueryRunTable(b, turn.bytes, turn.table, n, turn.at, eop);
      }
    }
  }

  lemma {:induction false} HeaderRunAt(b: seq<byte>, s: seq<byte>, t: Table, n: nat, p: nat, i: nat)
    requires Sealed(b, n) && Sealed(s, n) && SameFrom(b, s, p) && p <= n + 1 && i < |s|
    ensures HeaderRun(s, t, n, p).bytes[i] == if ScanHeaders(b, n, p).Cuts(i) then NUL else s[i]
    decreases n + 1 - p
  {
    hide ScanLine, ScanEnd, StrChr, SetPair;
    if p < n {
      ScanLineForward(b, s, n, p);
      var turn := HeaderTurn(s, t, n, p);
      if turn.more {
        HeaderRunAt(b, turn.bytes, turn.table, n, turn.at, i);
      }
    }
  }

  lemma {:induction false} HeaderRunTable(b: seq<byte>, s: seq<byte>, t: Table, n: nat, p: nat)
    requires Sealed(b, n) && Sealed(s, n) && SameFrom(b, s, p) && p <= n + 1
    ensures HeaderRun(s, t, n, p).table == Stored(t, ScanHeaders(b, n, p))
    decreases n + 1 - p
  {
    hide ScanLine, ScanEnd, StrChr, SetPair;
    if p < n {
      ScanLineForward(b, s, n, p);
      var turn := HeaderTurn(s, t, n, p);
      if turn.more {
        HeaderRunTable(b, turn.bytes, turn.table, n, turn.at);
      }
    }
  }

  lemma {:induction false} HeaderRunStop(b: seq<byte>, s: seq<byte>, t: Table, n: nat, p: nat)
    requires Sealed(b, n) && Sealed(s, n) && SameFrom(b, s, p) && p <= n + 1
    ensures HeaderRun(s, t, n, p).at == ScanStop(b, n, p)
    decreases n + 1 - p
  {
    hide ScanLine, ScanEnd, StrChr, SetPair;
    if p < n {
      ScanLineForward(b, s, n, p);
      var turn := HeaderTurn(s, t, n, p);
      if turn.more {
        HeaderRunStop(b, turn.bytes, turn.table, n, turn.at);
      }
    }
  }

  /** A located pair: its delimiters are what they should be and hide no NUL or earlier delimiter. */
  ghost predicate PairOk(b: seq<byte>, p: PairAt, from: nat, to: nat, sep: byte) {
    && from <= p.key <= p.sep < p.end <= to < |b| && b[p.sep] == sep
    && (forall j :: p.key <= j < p.end ==> b[j] != NUL)
    && (forall j :: p.key <= j < p.sep ==> b[j] != sep)
  }

  /** Pairs between from and to, one behind the other. */
  ghost predicate Tidy(b: seq<byte>, pairs: Pairs, from: nat, to: nat, sep: byte) {
    match pairs
    case Nil => true
    case Cons(p, more) => PairOk(b, p, from, to, sep) && Tidy(b, more, p.end + 1, to, sep)
  }

  lemma TidyWiden(b: seq<byte>, pairs: Pairs, from: nat, wider: nat, to: nat, sep: byte)
    requires Tidy(b, pairs, from, to, sep) && wider <= from
    ensures Tidy(b, pairs, wider, to, sep)
  {
  }

  lemma ScanPairOk(b: seq<byte>, n: nat, q: nat, eop: nat)
    requires Sealed(b, n) && q < eop < n && (forall j :: q <= j < eop ==> b[j] != NUL)
    ensures var r := ScanPair(b, n, q, eop);
            r.Some? ==>
              && PairOk(b, r.value, q, eop, '=') && r.value.value == r.value.sep + 1
              && (r.value.end < eop ==> b[r.value.end] == '&')
  {
    SealTerminates(b, n, q);
    StrChrSpec(b, q, '=');
    var r := ScanPair(b, n, q, eop);
    if r.Some? {
      SealTerminates(b, n, r.value.value);
    }
  }

  lemma {:induction false} QueryTidy(b: seq<byte>, n: nat, q: nat, eop: nat)
    requires Sealed(b, n) && q <= eop < n && (forall j :: q <= j < eop ==> b[j] != NUL)
    ensures Tidy(b, ScanQuery(b, n, q, eop), q, eop, '=')
    decreases eop - q
  {
    if q < eop {
      ScanPairOk(b, n, q, eop);
      var p := ScanPair(b, n, q, eop);
      if p.Some? && p.value.end < eop {
        QueryTidy(b, n, p.value.end + 1, eop);
      }
    }
  }

  lemma ScanLineOk(b: seq<byte>, n: nat, p: nat)
    requires Sealed(b, n) && p < n && ScanLine(b, n, p).Some? && ScanLine(b, n, p).value.1.Some?
    ensures var line := ScanLine(b, n, p).value;
            PairOk(b, PairAt(p, line.1.value, line.1.value + 2, line.0), p, n, ':') && b[line.0] == '\r'
  {
    SealTerminates(b, n, p);
    StrChrSpec(b, p, '\r');
    StrChrSpec(b, p, ':');
  }

  lemma {:induction false} HeadersTidy(b: seq<byte>, n: nat, p: nat)
    requires Sealed(b, n) && p <= n + 1
    ensures Tidy(b, ScanHeaders(b, n, p), p, n, ':')
    decreases n + 1 - p
  {
    if p < n && ScanLine(b, n, p).Some? {
      var line := ScanLine(b, n, p).value;
      HeadersTidy(b, n, line.0 + 2);
      if line.1.Some? {
        ScanLineOk(b, n, p);
        TidyWiden(b, ScanHeaders(b, n, line.0 + 2), line.0 + 2, line.0 + 1, n, ':');
      } else {
        TidyWiden(b, ScanHeaders(b, n, line.0 + 2), line.0 + 2, p, n, ':');
      }
    }
  }

  lemma {:induction false} TidyNth(b: seq<byte>, pairs: Pairs, from: nat, to: nat, sep: byte, k: nat)
    requires Tidy(b, pairs, from, to, sep) && k < pairs.Len()
    ensures PairOk(b, pairs.Nth(k), from, to, sep)
  {
    if k > 0 {
      TidyNth(b, pairs.tail, pairs.head.end + 1, to, sep, k - 1);
    }
  }

  lemma {:induction false} TidyCuts(b: seq<byte>, pairs: Pairs, from: nat, to: nat, sep: byte, i: nat)
    requires Tidy(b, pairs, from, to, sep) && pairs.Cuts(i)
    ensures from <= i <= to
  {
    if i != pairs.head.sep && i != pairs.head.end {
      TidyCuts(b, pairs.tail, pairs.head.end + 1, to, sep, i);
    }
  }

  /** No delimiter of any pair lies inside the key or the value of a pair, and a pair's own are. */
  lemma {:induction false} Apart(b: seq<byte>, pairs: Pairs, from: nat, to: nat, sep: byte, k: nat, i: nat)
    requires Tidy(b, pairs, from, to, sep) && k < pairs.Len()
    ensures pairs.Cuts(i) ==>
              !(pairs.Nth(k).key <= i < pairs.Nth(k).sep) && !(pairs.Nth(k).sep < i < pairs.Nth(k).end)
    ensures pairs.Cuts(pairs.Nth(k).sep) && pairs.Cuts(pairs.Nth(k).end)
  {
    var more, next := pairs.tail, pairs.head.end + 1;
    if more.Cuts(i) {
      TidyCuts(b, more, next, to, sep, i);
    }
    if k > 0 {
      TidyNth(b, more, next, to, sep, k - 1);
      Apart(b, more, next, to, sep, k - 1, i);
    }
  }

  /** What ends a query pair, and where its value starts. */
  lemma {:induction false} QueryEnds(b: seq<byte>, n: nat, q: nat, eop: nat, k: nat)
    requires Sealed(b, n) && q <= eop < n && (forall j :: q <= j < eop ==> b[j] != NUL)
    requires k < ScanQuery(b, n, q, eop).Len()
    ensures var p := ScanQuery(b, n, q, eop).Nth(k);
            p.value == p.sep + 1 && p.end <= eop && (p.end < eop ==> b[p.end] == '&')
    decreases eop - q
  {
    ScanPairOk(b, n, q, eop);
    if k > 0 {
      QueryEnds(b, n, ScanPair(b, n, q, eop).value.end + 1, eop, k - 1);
    }
  }

  /** What ends a header pair, and where its value starts. */
  lemma {:induction false} HeaderEnds(b: seq<byte>, n: nat, p: nat, k: nat)
    requires Sealed(b, n) && p <= n + 1 && k < ScanHeaders(b, n, p).Len()
    ensures var x := ScanHeaders(b, n, p).Nth(k);
            x.value == x.sep + 2 && x.end < n && b[x.end] == '\r'
    decreases n + 1 - p
  {
    var line := ScanLine(b, n, p).value;
    if line.1.Some? {
      ScanLineOk(b, n, p);
    }
    if line.1.None? || k > 0 {
      HeaderEnds(b, n, line.0 + 2, if line.1.None? then k else k - 1);
    }
  }

  /** A byte that a query pair cuts is an equals sign, an ampersand or the path's end. */
  lemma {:induction false} QueryCutsAre(b: seq<byte>, n: nat, q: nat, eop: nat, i: nat)
    requires Sealed(b, n) && q <= eop < n && (forall j :: q <= j < eop ==> b[j] != NUL)
    requires ScanQuery(b, n, q, eop).Cuts(i)
    ensures q <= i <= eop && (i == eop || b[i] == '=' || b[i] == '&')
    decreases eop - q
  {
    ScanPairOk(b, n, q, eop);
    var p := ScanPair(b, n, q, eop).value;
    if i != p.sep && i != p.end {
      QueryCutsAre(b, n, p.end + 1, eop, i);
    }
  }

  lemma {:induction false} HeaderCutsAre(b: seq<byte>, n: nat, p: nat, i: nat)
    requires Sealed(b, n) && p <= n + 1 && ScanHeaders(b, n, p).Cuts(i)
    ensures p <= i < n && (b[i] == ':' || b[i] == '\r')
    decreases n + 1 - p
  {
    var line := ScanLine(b, n, p).value;
    if line.1.Some? {
      ScanLineOk(b, n, p);
    }
    if line.1.None? || (i != line.1.value && i != line.0) {
      HeaderCutsAre(b, n, line.0 + 2, i);
    }
  }
}
