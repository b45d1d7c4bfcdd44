/** Where the parser puts its cursors and its NULs: positions only, over the bytes as received. */
module HttpScan {
  import opened Wrappers
  import opened CStrings

  /** One entry of the method table: four packed characters, the mask and the name's length. */
  datatype MethodEntry = MethodEntry(strn: int, mask: int, length: nat)

  /** Four characters as a little-endian 32-bit word. */
  function Pack(a: byte, b: byte, c: byte, d: byte): int {
    a as int + 0x100 * b as int + 0x1_0000 * c as int + 0x100_0000 * d as int
  }

  const METHODS: seq<MethodEntry> := [
    MethodEntry(Pack('G', 'E', 'T', ' '), 1, 3),
    MethodEntry(Pack('P', 'O', 'S', 'T'), 4, 4),
    MethodEntry(Pack('P', 'U', 'T', ' '), 8, 3),
    MethodEntry(Pack('D', 'E', 'L', 'E'), 16, 6),
    MethodEntry(Pack('P', 'A', 'T', 'C'), 256, 5),
    MethodEntry(Pack('H', 'E', 'A', 'D'), 2, 4),
    MethodEntry(Pack('O', 'P', 'T', 'I'), 64, 7),
    MethodEntry(Pack('T', 'R', 'A', 'C'), 128, 5),
    MethodEntry(Pack('C', 'O', 'N', 'N'), 32, 6)]

  /** A buffer of at least 64 bytes whose first n are data and whose other bytes are zero. */
  ghost predicate Received(b: seq<byte>, n: nat) {
    n < |b| && 64 <= |b| && forall i :: n <= i < |b| ==> b[i] == NUL
  }

  /** The one byte of the tail that stops every scan started in the data. */
  predicate Sealed(b: seq<byte>, n: nat) {
    n < |b| && b[n] == NUL
  }

  lemma SealTerminates(b: seq<byte>, n: nat, p: nat)
    requires Sealed(b, n) && p <= n
    ensures Terminated(b, p)
  {
  }

  lemma ReceivedTerminates(b: seq<byte>, n: nat, p: nat)
    requires Received(b, n) && p < |b|
    ensures Terminated(b, p)
  {
    assert b[if p < n then n else p] == NUL;
  }

  /** A key/value pair: key at [key..sep), value from value up to the byte at end. */
  datatype PairAt = PairAt(key: nat, sep: nat, value: nat, end: nat)

  /** Located pairs, first one first. */
  datatype Pairs = Nil | Cons(head: PairAt, tail: Pairs) {
    function Len(): nat {
      if Nil? then 0 else 1 + tail.Len()
    }

    function Nth(k: nat): PairAt
      requires k < Len()
    {
      if k == 0 then head else tail.Nth(k - 1)
    }

    /** i is a delimiter of one of the pairs. */
    predicate Cuts(i: nat) {
      Cons? && (i == head.sep || i == head.end || tail.Cuts(i))
    }
  }

  /** A pointer difference cast to size_t: a negative one wraps. */
  function SizeT(x: int): int { if 0 <= x then x else x + 0x1_0000_0000_0000_0000 }

  function Word(b: seq<byte>, p: nat): int
    requires p + 4 <= |b|
  {
    Pack(b[p], b[p + 1], b[p + 2], b[p + 3])
  }

  function FindMethod(word: int, k: nat): Option<MethodEntry>
    requires k <= |METHODS|
    ensures FindMethod(word, k).Some? ==> FindMethod(word, k).value.mask != 0 && 3 <= FindMethod(word, k).value.length <= 7
    decreases |METHODS| - k
  {
    if k == |METHODS| then None
    else if METHODS[k].strn == word then Some(METHODS[k])
    else FindMethod(word, k + 1)
  }

  ghost function ScanMethod(b: seq<byte>, n: nat): (r: Option<MethodEntry>)
    requires n <= |b|
    ensures r.Some? ==> 4 <= n && r.value.mask != 0 && 3 <= r.value.length <= 7
  {
    if n < 4 then None else FindMethod(Word(b, 0), 0)
  }

  ghost function ScanSpaces(b: seq<byte>, n: nat, p: nat): (r: nat)
    requires n <= |b|
    ensures p <= r && (r == p || r <= n)
    decreases n - p
  {
    if p < n && b[p] == ' ' then ScanSpaces(b, n, p + 1) else p
  }

  /** The pair that starts at q, if the query has one there, ended by & or by the path's end. */
  ghost function ScanPair(b: seq<byte>, n: nat, q: nat, eop: nat): (r: Option<PairAt>)
    requires Sealed(b, n) && q < eop < n
    ensures r.Some? ==> r.value.key == q <= r.value.sep && r.value.value == r.value.sep + 1 <= r.value.end <= eop
  {
    SealTerminates(b, n, q);
    var sep := StrChr(b, q, '=');
    if sep.None? || sep.value >= eop then None else
      SealTerminates(b, n, sep.value + 1);
      var amp := StrChr(b, sep.value + 1, '&');
      Some(PairAt(q, sep.value, sep.value + 1, if amp.Some? && amp.value < eop then amp.value else eop))
  }

  ghost function ScanQuery(b: seq<byte>, n: nat, q: nat, eop: nat): Pairs
    requires Sealed(b, n) && q <= eop < n
    decreases eop - q
  {
    if q == eop then Nil else
      match ScanPair(b, n, q, eop)
      case None => Nil
      case Some(p) => Cons(p, if p.end < eop then ScanQuery(b, n, p.end + 1, eop) else Nil)
  }

  /** The question mark that opens the query of the target from p to eop. */
  ghost function ScanMark(b: seq<byte>, n: nat, p: nat, eop: nat): (r: Option<nat>)
    requires Sealed(b, n) && p <= eop < n
    ensures r.Some? ==> p <= r.value < eop && b[r.value] == '?'
  {
    SealTerminates(b, n, p);
    var mark := StrChr(b, p, '?');
    if mark.Some? && mark.value < eop then mark else None
  }

  ghost function ScanTarget(b: seq<byte>, n: nat, p: nat, eop: nat): Pairs
    requires Sealed(b, n) && p <= eop < n
  {
    var mark := ScanMark(b, n, p, eop);
    if mark.Some? then ScanQuery(b, n, mark.value + 1, eop) else Nil
  }

  /** The space that ends the path, if a path can be read at p. */
  ghost function ScanPath(b: seq<byte>, n: nat, p: nat): (r: Option<nat>)
    requires Received(b, n) && p < |b|
    ensures r.Some? ==> p < r.value < n
  {
    ReceivedTerminates(b, n, p);
    if SizeT(n - p) < 13 || b[p] != '/' then None else
      StrChrBefore(b, p, ' ', n);
      StrChr(b, p, ' ')
  }

  ghost function ScanProtocol(b: seq<byte>, n: nat, p: nat): (r: Option<nat>)
    requires Sealed(b, n) && p <= n
    ensures r.Some? ==> p <= r.value < n
  {
    SealTerminates(b, n, p);
    StrChrBefore(b, p, '\r', n);
    if SizeT(n - p) < 11 then None else
      match StrChr(b, p, '\r')
      case None => None
      case Some(eol) => if Word(b, p) != Pack('H', 'T', 'T', 'P') then None else Some(eol)
  }

  /** The header line at p: where it ends, and its colon if it has one; nothing at the end of the
      section. */
  ghost function ScanLine(b: seq<byte>, n: nat, p: nat): (r: Option<(nat, Option<nat>)>)
    requires Sealed(b, n) && p < n
    ensures r.Some? ==> p + 5 <= r.value.0 < n && (r.value.1.Some? ==> p <= r.value.1.value < r.value.0)
  {
    SealTerminates(b, n, p);
    StrChrBefore(b, p, '\r', n);
    var eol := StrChr(b, p, '\r');
    if eol.None? || SizeT(eol.value - p) < 5 then None else
      var colon := StrChr(b, p, ':');
      Some((eol.value, if colon.Some? && colon.value < eol.value then colon else None))
  }

  /** Where a header section without further lines leaves the cursor: on a CR, or where it was. */
  ghost function ScanEnd(b: seq<byte>, n: nat, p: nat): (r: nat)
    requires Sealed(b, n) && p <= n + 1
    ensures p <= r <= n + 1
  {
    if p >= n then p else
      SealTerminates(b, n, p);
      StrChrBefore(b, p, '\r', n);
      var eol := StrChr(b, p, '\r');
      if eol.None? then p else eol.value
  }

  ghost function ScanHeaders(b: seq<byte>, n: nat, p: nat): Pairs
    requires Sealed(b, n) && p <= n + 1
    decreases n + 1 - p
  {
    if p >= n then Nil else
      match ScanLine(b, n, p)
      case None => Nil
      case Some(line) =>
        var more := ScanHeaders(b, n, line.0 + 2);
        if line.1.None? then more else Cons(PairAt(p, line.1.value, line.1.value + 2, line.0), more)
  }

  /** Where the header section that starts at p leaves the cursor. */
  ghost function ScanStop(b: seq<byte>, n: nat, p: nat): (r: nat)
    requires Sealed(b, n) && p <= n + 1
    ensures p <= r <= n + 1
    decreases n + 1 - p
  {
    if p >= n then p else
      match ScanLine(b, n, p)
      case None => ScanEnd(b, n, p)
      case Some(line) => ScanStop(b, n, line.0 + 2)
  }
}
