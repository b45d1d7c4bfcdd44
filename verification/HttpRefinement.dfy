/** The in-place parser refines the grammar: it accepts the same requests and delivers the same
    strings. */
module HttpRefinement {
  import opened Wrappers
  import opened CStrings
  import opened HttpScan
  import G = HttpGrammar

  /** strchr from p, cut off at hi, splits the text from p to hi. */
  lemma {:induction false} SplitAt(b: seq<byte>, p: nat, hi: nat, c: byte)
    requires Terminated(b, p) && p <= hi <= |b| && c != NUL
    ensures var r := StrChr(b, p, c);
            G.Split(Sub(b, p, hi), c) ==
            if r.Some? && r.value < hi then Some((Sub(b, p, r.value), Sub(b, r.value + 1, hi))) else None
    decreases |b| - p
  {
    if p < hi && b[p] != c && b[p] != NUL {
      SplitAt(b, p + 1, hi, c);
    }
  }

  lemma LowDigit(x: int, k: int)
    requires x == 0x100 * k && -0x100 < x < 0x100
    ensures x == 0 && k == 0
  {
  }

  /** Packing four bytes loses nothing. */
  lemma PackIs(a: byte, b: byte, c: byte, d: byte, a': byte, b': byte, c': byte, d': byte)
    ensures Pack(a, b, c, d) == Pack(a', b', c', d') <==> a == a' && b == b' && c == c' && d == d'
  {
    if Pack(a, b, c, d) == Pack(a', b', c', d') {
      var k3 := d' as int - d as int;
      var k2 := c' as int - c as int + 0x100 * k3;
      var k1 := b' as int - b as int + 0x100 * k2;
      LowDigit(a as int - a' as int, k1);
      LowDigit(b as int - b' as int, k2);
      LowDigit(c as int - c' as int, k3);
    }
  }

  /** The first four bytes of a text, packed. */
  function PackText(t: Text): int {
    match t
    case Char(a, Char(b, Char(c, Char(d, _)))) => Pack(a, b, c, d)
    case _ => -1
  }

  predicate HasFour(t: Text) {
    t.Char? && t.tail.Char? && t.tail.tail.Char? && t.tail.tail.tail.Char?
  }

  lemma HasFourIs(t: Text)
    ensures HasFour(t) <==> 4 <= t.Len()
  {
    if t.Char? && t.tail.Char? {
      var u := t.tail.tail;
      assert t.Len() == 2 + u.Len();
      assert 2 <= u.Len() <==> u.Char? && u.tail.Char?;
    }
  }

  lemma TakeFour(t: Text)
    requires HasFour(t)
    ensures t.Take(4) == Char(t.head, Char(t.tail.head, Char(t.tail.tail.head, Char(t.tail.tail.tail.head, End))))
  {
    var u := t.tail.tail;
    assert u.tail.Take(1) == Char(u.tail.head, u.tail.tail.Take(0));
    assert t.Take(4) == Char(t.head, Char(t.tail.head, u.Take(2)));
  }

  lemma PackTextIs(t: Text, u: Text)
    requires HasFour(t) && HasFour(u) && u.tail.tail.tail.tail.End?
    ensures PackText(t) == PackText(u) <==> t.Take(4) == u
  {
    TakeFour(t);
    PackIs(t.head, t.tail.head, t.tail.tail.head, t.tail.tail.tail.head,
      u.head, u.tail.head, u.tail.tail.head, u.tail.tail.tail.head);
  }

  lemma WordIs(b: seq<byte>, p: nat, hi: nat)
    requires p + 4 <= hi <= |b|
    ensures HasFour(Sub(b, p, hi)) && Word(b, p) == PackText(Sub(b, p, hi))
  {
    var t := Sub(b, p, hi);
    assert Sub(b, p + 1, hi) == Char(b[p + 1], Sub(b, p + 2, hi));
    assert Sub(b, p + 2, hi) == Char(b[p + 2], Sub(b, p + 3, hi));
    assert Sub(b, p + 3, hi) == Char(b[p + 3], Sub(b, p + 4, hi));
  }

  /** The four packed characters of a table entry are what the method's name opens with. */
  lemma EntryIs(k: nat)
    requires k < |METHODS|
    ensures |G.METHOD_NAMES| == |METHODS|
    ensures var m := G.METHOD_NAMES[k];
            && m.skip == METHODS[k].length && m.mask == METHODS[k].mask
            && HasFour(G.Opening(m)) && G.Opening(m).tail.tail.tail.tail.End? && METHODS[k].strn == PackText(G.Opening(m))
  {
  }

  lemma {:induction false} MethodsAgree(t: Text, k: nat)
    requires 4 <= t.Len() && k <= |METHODS| == |G.METHOD_NAMES|
    ensures var x, y := FindMethod(PackText(t), k), G.MethodFrom(t, k);
            && (x.Some? <==> y.Some?)
            && (x.Some? ==> x.value.mask == y.value.mask && x.value.length == y.value.skip)
    decreases |METHODS| - k
  {
    if k < |METHODS| {
      EntryIs(k);
      HasFourIs(t);
      PackTextIs(t, G.Opening(G.METHOD_NAMES[k]));
      MethodsAgree(t, k + 1);
    }
  }

  // The methods by name.

  function Four(a: byte, b: byte, c: byte, d: byte): Text {
    Char(a, Char(b, Char(c, Char(d, End))))
  }

  lemma OpeningIs(k: nat)
    requires k < 9
    ensures |G.METHOD_NAMES| == 9
    ensures G.Opening(G.METHOD_NAMES[k]) == OpeningOf(k)
  {
  }

  function OpeningOf(k: nat): Text
    requires k < 9
  {
    if k == 0 then Four('G', 'E', 'T', ' ') else if k == 1 then Four('P', 'O', 'S', 'T')
    else if k == 2 then Four('P', 'U', 'T', ' ') else if k == 3 then Four('D', 'E', 'L', 'E')
    else if k == 4 then Four('P', 'A', 'T', 'C') else if k == 5 then Four('H', 'E', 'A', 'D')
    else if k == 6 then Four('O', 'P', 'T', 'I') else if k == 7 then Four('T', 'R', 'A', 'C')
    else Four('C', 'O', 'N', 'N')
  }

  lemma OpeningsDiffer(j: nat, k: nat)
    requires j < k < 9
    ensures OpeningOf(j) != OpeningOf(k)
  {
  }

  /** The first name that a text opens with. */
  lemma {:induction false} MethodFound(t: Text, k: nat, from: nat)
    requires from <= k < 9 == |G.METHOD_NAMES| && t.Take(4) == OpeningOf(k)
    ensures G.MethodFrom(t, from) == Some(G.METHOD_NAMES[k])
    decreases k - from
  {
    hide G.Opening, OpeningOf;
    OpensWith(t, k);
    OpeningIs(from);
    OpeningIs(k);
    if from < k {
      OpeningsDiffer(from, k);
      MethodFound(t, k, from + 1);
    }
  }

  lemma OpensWith(t: Text, k: nat)
    requires k < 9 && t.Take(4) == OpeningOf(k)
    ensures 4 <= t.Len()
  {
    HasFourIs(t);
    assert t.Char?;
    assert t.tail.Take(3).Char?;
    assert t.tail.tail.Take(2).Char?;
    assert t.tail.tail.tail.Take(1).Char?;
  }

  lemma {:induction false} NotFound(t: Text, from: nat)
    requires from <= 9 == |G.METHOD_NAMES|
    requires forall k :: 0 <= k < 9 ==> t.Take(4) != OpeningOf(k)
    ensures G.MethodFrom(t, from) == None
    decreases 9 - from
  {
    hide G.Opening, OpeningOf;
    if from < 9 {
      OpeningIs(from);
      assert t.Take(4) != OpeningOf(from);
      NotFound(t, from + 1);
    }
  }

  lemma NamesAre(k: nat)
    requires k < 9
    ensures |G.METHOD_NAMES| == 9
    ensures G.METHOD_NAMES[k].mask == if k == 0 then 1 else if k == 1 then 4 else if k == 2 then 8 else if k == 3 then 16
                                      else if k == 4 then 256 else if k == 5 then 2 else if k == 6 then 64
                                      else if k == 7 then 128 else 32
    ensures G.METHOD_NAMES[k].skip == if k == 0 || k == 2 then 3 else if k == 1 || k == 5 then 4
                                      else if k == 4 || k == 7 then 5 else if k == 6 then 7 else 6
  {
  }

  /** The methods: by which four bytes each is recognised, its mask, a single bit that is no other
      method's, and how many bytes are stepped over. */
  lemma MethodsAre(t: Text)
    ensures var o, m := t.Take(4), G.MethodOf(t);
            (if m.Some? then (m.value.mask, m.value.skip) else (0, 0)) ==
            if o == Char('G', Char('E', Char('T', Char(' ', End)))) then (1, 3)
            else if o == Char('H', Char('E', Char('A', Char('D', End)))) then (2, 4)
            else if o == Char('P', Char('O', Char('S', Char('T', End)))) then (4, 4)
            else if o == Char('P', Char('U', Char('T', Char(' ', End)))) then (8, 3)
            else if o == Char('D', Char('E', Char('L', Char('E', End)))) then (16, 6)
            else if o == Char('C', Char('O', Char('N', Char('N', End)))) then (32, 6)
            else if o == Char('O', Char('P', Char('T', Char('I', End)))) then (64, 7)
            else if o == Char('T', Char('R', Char('A', Char('C', End)))) then (128, 5)
            else if o == Char('P', Char('A', Char('T', Char('C', End)))) then (256, 5)
            else (0, 0)
    ensures G.MethodOf(t).Some? ==> G.MethodOf(t).value.mask != 0
  {
    hide G.MethodFrom, G.Opening;
    NamesAre(0);
    if k: nat :| k < 9 && t.Take(4) == OpeningOf(k) {
      NamesAre(k);
      MethodFound(t, k, 0);
    } else {
      NotFound(t, 0);
      Unopened(t.Take(4));
    }
  }

  lemma Unopened(o: Text)
    requires forall k :: 0 <= k < 9 ==> o != OpeningOf(k)
    ensures o != Four('G', 'E', 'T', ' ') && o != Four('P', 'O', 'S', 'T') && o != Four('P', 'U', 'T', ' ')
    ensures o != Four('D', 'E', 'L', 'E') && o != Four('P', 'A', 'T', 'C') && o != Four('H', 'E', 'A', 'D')
    ensures o != Four('O', 'P', 'T', 'I') && o != Four('T', 'R', 'A', 'C') && o != Four('C', 'O', 'N', 'N')
  {
    assert o != OpeningOf(0) && o != OpeningOf(1) && o != OpeningOf(2) && o != OpeningOf(3) && o != OpeningOf(4);
    assert o != OpeningOf(5) && o != OpeningOf(6) && o != OpeningOf(7) && o != OpeningOf(8);
  }

  lemma {:induction false} NoMethod(t: Text, k: nat)
    requires t.Len() < 4 && k <= |G.METHOD_NAMES|
    ensures G.MethodFrom(t, k) == None
    decreases |G.METHOD_NAMES| - k
  {
    if k < |G.METHOD_NAMES| {
      NoMethod(t, k + 1);
    }
  }

  lemma MethodIs(b: seq<byte>, n: nat)
    requires n <= |b|
    ensures var x, y := ScanMethod(b, n), G.MethodOf(Sub(b, 0, n));
            && (x.Some? <==> y.Some?)
            && (x.Some? ==> x.value.mask == y.value.mask && x.value.length == y.value.skip)
  {
    SubLen(b, 0, n);
    if n < 4 {
      NoMethod(Sub(b, 0, n), 0);
    } else {
      WordIs(b, 0, n);
      MethodsAgree(Sub(b, 0, n), 0);
    }
  }

  lemma {:induction false} SpacesAre(b: seq<byte>, n: nat, p: nat)
    requires n <= |b|
    ensures G.TrimSpaces(Sub(b, p, n)) == Sub(b, ScanSpaces(b, n, p), n)
    decreases if p < n then n - p else 0
  {
    if p < n && b[p] == ' ' {
      SpacesAre(b, n, p + 1);
    }
  }

  /** The path stage finds the target where the grammar does, also for a cursor behind the data,
      whose length to the end of the data wraps. */
  lemma TargetIs(b: seq<byte>, n: nat, p: nat)
    requires Received(b, n) && p < |b|
    ensures match ScanPath(b, n, p)
            case None => G.TargetOf(Sub(b, p, n)) == None
            case Some(eop) => p < eop < n && G.TargetOf(Sub(b, p, n)) == Some((Sub(b, p, eop), Sub(b, eop + 1, n)))
  {
    ReceivedTerminates(b, n, p);
    SubLen(b, p, n);
    if p <= n {
      StrChrBefore(b, p, ' ', n);
      SplitAt(b, p, n, ' ');
    }
  }

  lemma ProtocolIsText(b: seq<byte>, n: nat, p: nat)
    requires Sealed(b, n) && p <= n
    ensures match ScanProtocol(b, n, p)
            case None => G.ProtocolOf(Sub(b, p, n)) == None
            case Some(eol) => p <= eol < n && G.ProtocolOf(Sub(b, p, n)) == Some((Sub(b, p, eol), Sub(b, eol + 2, n)))
  {
    hide StrChr, G.Split, PackText, G.Lit, Sub;
    SealTerminates(b, n, p);
    SubLen(b, p, n);
    StrChrBefore(b, p, '\r', n);
    SplitAt(b, p, n, '\r');
    if p + 11 <= n {
      WordIs(b, p, n);
      HttpWord(Sub(b, p, n));
      var eol := StrChr(b, p, '\r');
      if eol.Some? {
        SubDrop(b, eol.value + 1, n, 1);
      }
    }
  }

  lemma HttpWord(t: Text)
    requires HasFour(t)
    ensures PackText(t) == Pack('H', 'T', 'T', 'P') <==> t.Take(4) == G.Lit("HTTP")
  {
    var http: seq<byte> := "HTTP";
    assert Sub(http, 2, 4) == Char('T', Char('P', End));
    assert Sub(http, 0, 4) == Char('H', Char('T', Sub(http, 2, 4)));
    PackTextIs(t, G.Lit("HTTP"));
  }

  lemma PairIs(b: seq<byte>, n: nat, q: nat, eop: nat)
    requires Sealed(b, n) && q < eop < n
    ensures match ScanPair(b, n, q, eop)
            case None => G.Split(Sub(b, q, eop), '=') == None
            case Some(x) =>
              && x.sep < x.value <= x.end <= eop
              && G.Split(Sub(b, q, eop), '=') == Some((Sub(b, q, x.sep), Sub(b, x.value, eop)))
              && G.Split(Sub(b, x.value, eop), '&') ==
                 if x.end < eop then Some((Sub(b, x.value, x.end), Sub(b, x.end + 1, eop))) else None
  {
    SealTerminates(b, n, q);
    SplitAt(b, q, eop, '=');
    var x := ScanPair(b, n, q, eop);
    if x.Some? {
      SealTerminates(b, n, x.value.value);
      SplitAt(b, x.value.value, eop, '&');
    }
  }

  /** One step of both readings of the query. */
  lemma QueryNext(b: seq<byte>, n: nat, q: nat, eop: nat)
    requires Sealed(b, n) && q < eop < n
    ensures match ScanPair(b, n, q, eop)
            case None => ScanQuery(b, n, q, eop) == Nil && G.QueryPairs(Sub(b, q, eop)) == Empty
            case Some(x) =>
              && x.key == q && x.sep < x.value <= x.end <= eop
              && ScanQuery(b, n, q, eop) == Cons(x, if x.end < eop then ScanQuery(b, n, x.end + 1, eop) else Nil)
              && G.QueryPairs(Sub(b, q, eop)) ==
                 Item(G.QueryArg(Sub(b, q, x.sep), Sub(b, x.value, x.end)),
                      if x.end < eop then G.QueryPairs(Sub(b, x.end + 1, eop)) else Empty)
  {
    PairIs(b, n, q, eop);
  }

  lemma NoQuery(b: seq<byte>, n: nat, eop: nat)
    requires Sealed(b, n) && eop < n
    ensures ScanQuery(b, n, eop, eop) == Nil && G.QueryPairs(Sub(b, eop, eop)) == Empty
  {
  }

  lemma {:induction false} QueryLenIs(b: seq<byte>, n: nat, q: nat, eop: nat)
    requires Sealed(b, n) && q <= eop < n
    ensures ScanQuery(b, n, q, eop).Len() == G.QueryPairs(Sub(b, q, eop)).Len()
    decreases eop - q
  {
    hide ScanQuery, ScanPair, G.QueryPairs, G.Split, StrChr, Sub;
    if q < eop {
      QueryNext(b, n, q, eop);
      var x := ScanPair(b, n, q, eop);
      if x.Some? && x.value.end < eop {
        QueryLenIs(b, n, x.value.end + 1, eop);
      }
    } else {
      NoQuery(b, n, eop);
    }
  }

  lemma {:induction false} QueryNthIs(b: seq<byte>, n: nat, q: nat, eop: nat, k: nat)
    requires Sealed(b, n) && q <= eop < n && k < ScanQuery(b, n, q, eop).Len()
    ensures k < G.QueryPairs(Sub(b, q, eop)).Len()
    ensures var x := ScanQuery(b, n, q, eop).Nth(k);
            && x.sep < x.value <= x.end <= eop
            && G.QueryPairs(Sub(b, q, eop)).Nth(k) == G.QueryArg(Sub(b, x.key, x.sep), Sub(b, x.value, x.end))
    decreases eop - q
  {
    if q < eop {
      hide ScanQuery, ScanPair, G.QueryPairs;
      QueryNext(b, n, q, eop);
      if k > 0 {
        QueryNthIs(b, n, ScanPair(b, n, q, eop).value.end + 1, eop, k - 1);
      }
    }
  }

  /** The field of a located header line. */
  ghost function FieldText(b: seq<byte>, x: PairAt): G.Field
    requires x.key <= x.sep < x.end < |b|
  {
    G.Field(Sub(b, x.key, x.sep), Sub(b, x.sep + 2, x.end), x.sep + 1 == x.end)
  }

  lemma LineIs(b: seq<byte>, n: nat, p: nat)
    requires Sealed(b, n) && p < n
    ensures match ScanLine(b, n, p)
            case None =>
              && G.LineOf(Sub(b, p, n)) == None
              && G.Leave(Sub(b, p, n)) == Sub(b, ScanEnd(b, n, p), n)
            case Some(line) =>
              && p + 5 <= line.0 < n
              && G.LineOf(Sub(b, p, n)) == Some((Sub(b, p, line.0), Sub(b, line.0 + 2, n)))
  {
    SealTerminates(b, n, p);
    StrChrBefore(b, p, '\r', n);
    SplitAt(b, p, n, '\r');
    var eol := StrChr(b, p, '\r');
    if eol.Some? {
      SubLen(b, p, eol.value);
      SubDrop(b, eol.value + 1, n, 1);
    }
  }

  lemma FieldIs(b: seq<byte>, n: nat, p: nat)
    requires Sealed(b, n) && p < n && ScanLine(b, n, p).Some?
    ensures var line := ScanLine(b, n, p).value;
            match line.1
            case None => G.FieldOf(Sub(b, p, line.0)) == None
            case Some(colon) =>
              && p <= colon < line.0 < n
              && G.FieldOf(Sub(b, p, line.0)) == Some(FieldText(b, PairAt(p, colon, colon + 2, line.0)))
  {
    SealTerminates(b, n, p);
    var line := ScanLine(b, n, p).value;
    SplitAt(b, p, line.0, ':');
    if line.1.Some? {
      SubDrop(b, line.1.value + 1, line.0, 1);
    }
  }

  /** One step of both readings of the header section. */
  lemma HeadersNext(b: seq<byte>, n: nat, p: nat)
    requires Sealed(b, n) && p < n
    ensures match ScanLine(b, n, p)
            case None => G.Fields(Sub(b, p, n)) == Empty && ScanHeaders(b, n, p) == Nil
            case Some(line) =>
              && p + 5 <= line.0 < n
              && var more, scan := G.Fields(Sub(b, line.0 + 2, n)), ScanHeaders(b, n, line.0 + 2);
              match line.1
              case None => G.Fields(Sub(b, p, n)) == more && ScanHeaders(b, n, p) == scan
              case Some(colon) =>
                && p <= colon < line.0
                && G.Fields(Sub(b, p, n)) == Item(FieldText(b, PairAt(p, colon, colon + 2, line.0)), more)
                && ScanHeaders(b, n, p) == Cons(PairAt(p, colon, colon + 2, line.0), scan)
  {
    LineIs(b, n, p);
    if ScanLine(b, n, p).Some? {
      FieldIs(b, n, p);
    }
  }

  lemma NoHeaders(b: seq<byte>, n: nat, p: nat)
    requires Sealed(b, n) && n <= p <= n + 1
    ensures G.Fields(Sub(b, p, n)) == Empty && ScanHeaders(b, n, p) == Nil && G.Leave(Sub(b, p, n)) == End
  {
  }

  lemma {:induction false} HeadersLenIs(b: seq<byte>, n: nat, p: nat)
    requires Sealed(b, n) && p <= n + 1
    ensures ScanHeaders(b, n, p).Len() == G.Fields(Sub(b, p, n)).Len()
    decreases n + 1 - p
  {
    hide ScanHeaders, ScanLine, G.Fields;
    if p < n {
      HeadersNext(b, n, p);
      var line := ScanLine(b, n, p);
      if line.Some? {
        HeadersLenIs(b, n, line.value.0 + 2);
      }
    } else {
      NoHeaders(b, n, p);
    }
  }

  lemma {:induction false} HeadersNthIs(b: seq<byte>, n: nat, p: nat, k: nat)
    requires Sealed(b, n) && p <= n + 1 && k < ScanHeaders(b, n, p).Len()
    ensures k < G.Fields(Sub(b, p, n)).Len()
    ensures var x := ScanHeaders(b, n, p).Nth(k);
            x.key <= x.sep < x.end < |b| && G.Fields(Sub(b, p, n)).Nth(k) == FieldText(b, x)
    decreases n + 1 - p
  {
    hide ScanHeaders, ScanLine, G.Fields;
    if p < n {
      HeadersNext(b, n, p);
      var line := ScanLine(b, n, p);
      if line.Some? && (line.value.1.None? || k > 0) {
        HeadersNthIs(b, n, line.value.0 + 2, if line.value.1.None? then k else k - 1);
      }
    } else {
      NoHeaders(b, n, p);
    }
  }

  lemma {:induction false} LeaveIs(b: seq<byte>, n: nat, p: nat)
    requires Sealed(b, n) && p <= n + 1
    ensures G.Leave(Sub(b, p, n)) == Sub(b, ScanStop(b, n, p), n)
    decreases n + 1 - p
  {
    if p < n {
      LineIs(b, n, p);
      var line := ScanLine(b, n, p);
      if line.Some? {
        LeaveIs(b, n, line.value.0 + 2);
      }
    } else {
      NoHeaders(b, n, p);
    }
  }
}
