/** Composing a response, and that what was composed can be taken apart again. */
module HttpResponse {
  import opened Wrappers
  import opened CStrings
  import opened StringBuffer
  import opened HttpGrammar
  import opened HttpRoundTrip
  import opened Words

  datatype Header = Header(key: Text, value: Text)

  /** A mapped file, an open file whose bytes are spliced later, or the response's own string. */
  datatype Content = File(bytes: seq<byte>) | FileFd(fd: int, size: nat) | Str(bytes: seq<byte>) {
    function Length(): nat { if FileFd? then size else |bytes| }

    function Bytes(): seq<byte> { if FileFd? then [] else bytes }

    /** What is composed of it: a string ends at its first NUL. */
    function Sent(): Text { Sub(Bytes(), 0, Before(Bytes(), |Bytes()|)) }
  }

  /** A status of zero stands for 200. */
  datatype Response = Response(protocol: Text, status: int, headers: seq<Header>, content: Content)

  function Digit(d: nat): byte
    requires d < 10
  {
    ('0' as int + d) as char
  }

  /** %ld of a number that is not negative. */
  function Decimal(n: nat): Text {
    if n < 10 then Char(Digit(n), End) else Decimal(n / 10).Then(Char(Digit(n % 10), End))
  }

  /** %d */
  function Signed(n: int): Text {
    if n < 0 then Char('-', Decimal(-n)) else Decimal(n)
  }

  function StatusLine(r: Response): Text {
    r.protocol.Then(Char(' ', Signed(if r.status != 0 then r.status else 200).Then(Lit(" OK"))))
  }

  function HeaderLine(h: Header): Text {
    h.key.Then(Char(':', Char(' ', h.value)))
  }

  const CONTENT_LENGTH: seq<byte> := "Content-Length: "

  function LengthLine(n: nat): Text {
    Lit(CONTENT_LENGTH).Then(Decimal(n))
  }

  /** The lines of the headers from the i-th on, each with its newline, and the text behind them. */
  function HeaderLines(headers: seq<Header>, i: nat, tail: Text): Text
    requires i <= |headers|
    decreases |headers| - i
  {
    if i == |headers| then tail else HeaderLine(headers[i]).Then(Char('\n', HeaderLines(headers, i + 1, tail)))
  }

  /** The whole response, with tail in the place of its body. */
  function Print(r: Response, tail: Text): Text {
    StatusLine(r).Then(Char('\n', HeaderLines(r.headers, 0,
      LengthLine(r.content.Length()).Then(Char('\n', Char('\n', tail))))))
  }

  // Texts as bytes.

  function Bytes(t: Text): (s: seq<byte>)
    ensures |s| == t.Len()
  {
    if t.End? then [] else [t.head] + Bytes(t.tail)
  }

  lemma {:induction false} BytesSub(t: Text, s: seq<byte>, p: nat)
    requires p + t.Len() <= |s| && forall i :: p <= i < p + t.Len() ==> s[i] == Bytes(t)[i - p]
    ensures Sub(s, p, p + t.Len()) == t
    decreases t
  {
    if t.Char? {
      forall i | p + 1 <= i < p + 1 + t.tail.Len()
        ensures s[i] == Bytes(t.tail)[i - (p + 1)]
      {
      }
      assert s[p] == Bytes(t)[0];
      BytesSub(t.tail, s, p + 1);
    }
  }

  lemma {:induction false} BytesNulFree(t: Text)
    requires !t.Has(NUL)
    ensures forall i :: 0 <= i < t.Len() ==> Bytes(t)[i] != NUL
    decreases t
  {
    if t.Char? {
      BytesNulFree(t.tail);
    }
  }

  lemma {:induction false} BeforeAll(s: seq<byte>, n: nat)
    requires n <= |s|
    ensures Before(s, n) == n <==> forall i :: 0 <= i < n ==> s[i] != NUL
    decreases n
  {
    if n > 0 {
      BeforeAll(s, n - 1);
    }
  }

  lemma {:induction false} ThenAssoc(a: Text, b: Text, c: Text)
    ensures a.Then(b).Then(c) == a.Then(b.Then(c))
    decreases a
  {
    if a.Char? {
      ThenAssoc(a.tail, b, c);
    }
  }

  lemma {:induction false} ThenEnd(a: Text)
    ensures a.Then(End) == a
    decreases a
  {
    if a.Char? {
      ThenEnd(a.tail);
    }
  }

  // The composer.

  /** What C's %s and %ld print: strings, and a length that is a long. */
  ghost predicate Printable(r: Response) {
    && r.content.Length() < 0x8000_0000_0000_0000
    && !StatusLine(r).Has(NUL) && forall i :: 0 <= i < |r.headers| ==> !HeaderLine(r.headers[i]).Has(NUL)
  }

  /** With its newline and a NUL the line fits into the 1024 bytes it is printed to. */
  predicate LineFits(line: Text) { line.Len() + 1 < 1024 }

  predicate AllFit(r: Response) {
    LineFits(StatusLine(r)) && forall i :: 0 <= i < |r.headers| ==> LineFits(HeaderLine(r.headers[i]))
  }

  ghost predicate Grows(grow: nat -> nat) {
    forall n: nat :: n < grow(n)
  }

  /** sprintf of a line into tmp, then string_append of it. A line that does not fit overruns tmp, and
      nothing is said of what follows. grow and junk are the allocator's answers. */
  method AppendLine(final: StrBuf, line: Text, grow: nat -> nat, junk: byte) returns (fits: bool)
    requires final.Valid() && final.Exact() && Grows(grow) && !line.Has(NUL)
    modifies final, final.buf
    ensures fits <==> LineFits(line)
    ensures final.Valid() && final.Exact() && (final.buf == old(final.buf) || fresh(final.buf))
    ensures fits ==> final.Value() == old(final.Value()).Then(line.Then(Char('\n', End)))
  {
    hide StrBuf.Valid, StrBuf.Exact, StrBuf.Value, Bytes, Sub, Before, Grows;
    fits := LineFits(line);
    if fits {
      var text := line.Then(Char('\n', End));
      var tmp := Bytes(text);
      LineBytes(line);
      Larger(grow, final.len + |tmp|);
      var ok := Append(final, tmp, |tmp|, grow(final.len + |tmp|), junk, true);
    }
  }

  lemma Larger(grow: nat -> nat, n: nat)
    requires Grows(grow)
    ensures n < grow(n)
  {
  }

  lemma LineBytes(line: Text)
    requires !line.Has(NUL)
    ensures var text := line.Then(Char('\n', End));
            |Bytes(text)| == text.Len() && Before(Bytes(text), text.Len()) == text.Len() && Sub(Bytes(text), 0, text.Len()) == text
  {
    hide Bytes, Sub, Before;
    var text := line.Then(Char('\n', End));
    HasThen(line, Char('\n', End), NUL);
    assert !Char('\n', End).Has(NUL);
    BytesNulFree(text);
    BeforeAll(Bytes(text), text.Len());
    BytesSub(text, Bytes(text), 0);
  }

  /** What comes of composing: nothing without a protocol, a response, or an overrun. */
  datatype Composition = NoProtocol | Overrun | Composed

  /** http_compose_response */
  method ComposeResponse(protocol: Option<Text>, status: int, headers: seq<Header>, content: Content,
                         final: StrBuf, grow: nat -> nat, junk: byte) returns (result: Composition)
    requires final.Valid() && final.Exact() && Grows(grow)
    requires protocol.Some? ==> Printable(Response(protocol.value, status, headers, content))
    modifies final, final.buf
    ensures final.Valid() && (final.buf == old(final.buf) || fresh(final.buf))
    ensures result == if protocol.None? then NoProtocol
                      else if AllFit(Response(protocol.value, status, headers, content)) then Composed else Overrun
    ensures result.NoProtocol? ==> final.len == old(final.len) && final.Value() == old(final.Value())
    ensures result.Composed? ==>
              var r := Response(protocol.value, status, headers, content);
              && final.Value() == old(final.Value()).Then(Print(r, content.Sent()))
              && final.len == old(final.len) + Print(r, End).Len() + |content.Bytes()|
              && (final.Exact() <==> forall i :: 0 <= i < |content.Bytes()| ==> content.Bytes()[i] != NUL)
  {
    if protocol.None? {
      return NoProtocol;
    }
    var fits := Compose(Response(protocol.value, status, headers, content), final, grow, junk);
    result := if fits then Composed else Overrun;
  }

  /** The composer for a request that has a protocol. It stops being described at the first line that
      does not fit. */
  method Compose(r: Response, final: StrBuf, grow: nat -> nat, junk: byte) returns (fits: bool)
    requires final.Valid() && final.Exact() && Grows(grow) && Printable(r)
    modifies final, final.buf
    ensures final.Valid() && (final.buf == old(final.buf) || fresh(final.buf))
    ensures fits <==> AllFit(r)
    ensures fits <==> StatusLine(r).Len() < 1023 && forall i :: 0 <= i < |r.headers| ==> HeaderLine(r.headers[i]).Len() < 1023
    ensures fits ==>
              && final.Value() == old(final.Value()).Then(Print(r, r.content.Sent()))
              && final.len == old(final.len) + Print(r, End).Len() + |r.content.Bytes()|
              && (final.Exact() <==> forall i :: 0 <= i < |r.content.Bytes()| ==> r.content.Bytes()[i] != NUL)
  {
    hide StrBuf.Valid, StrBuf.Exact, StrBuf.Value, Sub, Grows;
    var body := r.content.Bytes();
    ghost var v, len, sent := final.Value(), final.len, r.content.Sent();
    ExactLen(final);
    fits := ComposeHead(r, final, grow, junk, sent);
    if !fits {
      return;
    }
    ExactLen(final);
    HeadLen(v, final.Value(), r, sent);
    BeforeAll(body, |body|);
    ThenEnd(final.Value());
    if r.content.FileFd? {
      NothingSent(r.content);
    } else {
      Larger(grow, final.len + |body|);
      var ok := Append(final, body, |body|, grow(final.len + |body|), junk, true);
    }
  }

  lemma NothingSent(content: Content)
    requires content.FileFd?
    ensures content.Sent() == End
  {
  }

  /** All but the body, which is sent. */
  method ComposeHead(r: Response, final: StrBuf, grow: nat -> nat, junk: byte, ghost sent: Text) returns (fits: bool)
    requires final.Valid() && final.Exact() && Grows(grow) && Printable(r)
    modifies final, final.buf
    ensures final.Valid() && final.Exact() && (final.buf == old(final.buf) || fresh(final.buf))
    ensures fits <==> AllFit(r)
    ensures fits ==> final.Value().Then(sent) == old(final.Value()).Then(Print(r, sent))
  {
    hide StrBuf.Valid, StrBuf.Exact, StrBuf.Value, Grows, StatusLine, HeaderLine, LengthLine, LineFits;
    ghost var tail := LengthLine(r.content.Length()).Then(Char('\n', Char('\n', sent)));
    ghost var all := final.Value().Then(Print(r, sent));
    Joined(final.Value(), StatusLine(r), HeaderLines(r.headers, 0, tail));
    fits := AppendLine(final, StatusLine(r), grow, junk);
    var i := 0;
    while fits && i < |r.headers|
      invariant 0 <= i <= |r.headers|
      invariant final.Valid() && final.Exact() && (final.buf == old(final.buf) || fresh(final.buf))
      invariant fits ==> LineFits(StatusLine(r)) && forall k :: 0 <= k < i ==> LineFits(HeaderLine(r.headers[k]))
      invariant fits ==> final.Value().Then(HeaderLines(r.headers, i, tail)) == all
      invariant !fits ==> !AllFit(r)
      decreases |r.headers| - i
    {
      Joined(final.Value(), HeaderLine(r.headers[i]), HeaderLines(r.headers, i + 1, tail));
      fits := AppendLine(final, HeaderLine(r.headers[i]), grow, junk);
      i := i + 1;
    }
    if !fits {
      return;
    }
    LengthLineOk(r.content.Length());
    Joined(final.Value(), LengthLine(r.content.Length()), Char('\n', sent));
    fits := AppendLine(final, LengthLine(r.content.Length()), grow, junk);
    Joined(final.Value(), End, sent);
    EmptyFits();
    fits := AppendLine(final, End, grow, junk);
  }

  lemma EmptyFits()
    ensures LineFits(End) && !End.Has(NUL)
  {
  }

  /** An exact buffer counts its string. */
  lemma ExactLen(str: StrBuf)
    requires str.Valid()
    ensures str.Exact() <==> str.Value().Len() == str.len
  {
    StringLen(str.buf[..], 0);
  }

  lemma {:induction false} StringLen(s: seq<byte>, p: nat)
    requires Terminated(s, p)
    ensures CStr(s, p).Len() == EndOf(s, p) - p
    decreases |s| - p
  {
    if s[p] != NUL {
      StringLen(s, p + 1);
    }
  }

  lemma {:induction false} LinesLen(headers: seq<Header>, i: nat, tail: Text)
    requires i <= |headers|
    ensures HeaderLines(headers, i, tail).Len() == HeaderLines(headers, i, End).Len() + tail.Len()
    decreases |headers| - i
  {
    if i < |headers| {
      LinesLen(headers, i + 1, tail);
      LenThen(HeaderLine(headers[i]), Char('\n', HeaderLines(headers, i + 1, tail)));
      LenThen(HeaderLine(headers[i]), Char('\n', HeaderLines(headers, i + 1, End)));
    }
  }

  /** The length of a print is that of its head and of its body. */
  lemma PrintLen(r: Response, body: Text)
    ensures Print(r, body).Len() == Print(r, End).Len() + body.Len()
  {
    hide HeaderLines, StatusLine, LengthLine;
    var length := LengthLine(r.content.Length());
    var tail, last := length.Then(Char('\n', Char('\n', body))), length.Then(Char('\n', Char('\n', End)));
    LinesLen(r.headers, 0, tail);
    LinesLen(r.headers, 0, last);
    LenThen(length, Char('\n', Char('\n', body)));
    LenThen(length, Char('\n', Char('\n', End)));
    LenThen(StatusLine(r), Char('\n', HeaderLines(r.headers, 0, tail)));
    LenThen(StatusLine(r), Char('\n', HeaderLines(r.headers, 0, last)));
  }

  lemma HeadLen(v: Text, head: Text, r: Response, sent: Text)
    requires head.Then(sent) == v.Then(Print(r, sent))
    ensures head.Len() == v.Len() + Print(r, End).Len()
  {
    LenThen(head, sent);
    LenThen(v, Print(r, sent));
    PrintLen(r, sent);
  }

  lemma Joined(v: Text, line: Text, more: Text)
    ensures v.Then(line.Then(Char('\n', End))).Then(more) == v.Then(line.Then(Char('\n', more)))
  {
    ThenAssoc(v, line.Then(Char('\n', End)), more);
    ThenAssoc(line, Char('\n', End), more);
    assert Char('\n', End).Then(more) == Char('\n', more);
  }

  // Numbers and their digits.

  predicate IsDigit(c: byte) { '0' <= c <= '9' }

  /** Digits only, and as many as are asked for at most. */
  predicate Digits(t: Text) {
    t.End? || (IsDigit(t.head) && Digits(t.tail))
  }

  /** What a decimal text says, read on from what is read already. */
  function Number(t: Text, read: nat): nat
    requires Digits(t)
    decreases t
  {
    if t.End? then read else Number(t.tail, 10 * read + (t.head as int - '0' as int))
  }

  lemma {:induction false} NumberThen(a: Text, c: byte, read: nat)
    requires Digits(a) && IsDigit(c)
    ensures Digits(a.Then(Char(c, End)))
    ensures Number(a.Then(Char(c, End)), read) == 10 * Number(a, read) + (c as int - '0' as int)
    decreases a
  {
    if a.Char? {
      NumberThen(a.tail, c, 10 * read + (a.head as int - '0' as int));
    } else {
      assert Char(c, End).tail == End;
    }
  }

  /** Printing a number and reading it. */
  lemma {:induction false} DecimalBack(n: nat)
    ensures Digits(Decimal(n)) && Number(Decimal(n), 0) == n
    decreases n
  {
    if n >= 10 {
      DecimalBack(n / 10);
      NumberThen(Decimal(n / 10), Digit(n % 10), 0);
    }
  }

  lemma {:induction false} DecimalLen(n: nat, k: nat)
    requires Fits(n, k) && 0 < k
    ensures Decimal(n).Len() <= k
    decreases k
  {
    if n >= 10 {
      DecimalLen(n / 10, k - 1);
      LenThen(Decimal(n / 10), Char(Digit(n % 10), End));
    }
  }

  lemma {:induction false} DigitsFree(t: Text, c: byte)
    requires Digits(t) && !IsDigit(c)
    ensures !t.Has(c)
    decreases t
  {
    if t.Char? {
      DigitsFree(t.tail, c);
    }
  }

  lemma LengthLineOk(n: nat)
    requires n < 0x8000_0000_0000_0000
    ensures !LengthLine(n).Has(NUL) && LineFits(LengthLine(n))
  {
    LengthPrefix(n, NUL);
    Pow2Values();
    DecimalLen(n, 64);
    LenThen(Lit(CONTENT_LENGTH), Decimal(n));
    SubLen(CONTENT_LENGTH, 0, |CONTENT_LENGTH|);
  }

  lemma {:induction false} SubFree(s: seq<byte>, p: nat, e: nat, c: byte)
    requires p <= e <= |s| && forall i :: p <= i < e ==> s[i] != c
    ensures !Sub(s, p, e).Has(c)
    decreases e - p
  {
    if p < e {
      SubFree(s, p + 1, e, c);
    }
  }

  lemma LengthPrefix(n: nat, c: byte)
    requires c == NUL || c == '\n'
    ensures !LengthLine(n).Has(c) && LengthLine(n).Char? && LengthLine(n).Drop(16) == Decimal(n)
  {
    hide Sub;
    var head := Lit(CONTENT_LENGTH);
    SubLen(CONTENT_LENGTH, 0, |CONTENT_LENGTH|);
    SubFree(CONTENT_LENGTH, 0, |CONTENT_LENGTH|, c);
    DecimalBack(n);
    DigitsFree(Decimal(n), c);
    HasThen(head, Decimal(n), c);
    LenThen(head, Decimal(n));
    DropThen(head, Decimal(n));
  }

  // Taking a response apart.

  /** The lines up to the first empty one, and what follows it. */
  function SplitHead(t: Text): Option<(List<Text>, Text)>
    decreases t.Len()
  {
    match Split(t, '\n')
    case None => None
    case Some(split) =>
      if split.0.End? then Some((Empty, split.1))
      else match SplitHead(split.1)
        case None => None
        case Some(more) => Some((Item(split.0, more.0), more.1))
  }

  /** The lines of the headers from the i-th on, and one more. */
  function LinesFrom(headers: seq<Header>, i: nat, last: Text): List<Text>
    requires i <= |headers|
    decreases |headers| - i
  {
    if i == |headers| then Item(last, Empty) else Item(HeaderLine(headers[i]), LinesFrom(headers, i + 1, last))
  }

  /** No line holds a newline or a NUL. */
  ghost predicate OneLined(r: Response) {
    && Free(StatusLine(r), '\n')
    && forall i :: 0 <= i < |r.headers| ==> Free(HeaderLine(r.headers[i]), '\n')
  }

  lemma LineBack(line: Text, more: Text)
    requires Free(line, '\n') && line.Char?
    ensures SplitHead(line.Then(Char('\n', more))) ==
            match SplitHead(more) case None => None case Some(x) => Some((Item(line, x.0), x.1))
  {
    SplitJoined(line, '\n', more);
  }

  lemma {:induction false} HeadersBack(r: Response, i: nat, last: Text, body: Text)
    requires OneLined(r) && i <= |r.headers| && Free(last, '\n') && last.Char?
    ensures SplitHead(HeaderLines(r.headers, i, last.Then(Char('\n', Char('\n', body))))) ==
            Some((LinesFrom(r.headers, i, last), body))
    decreases |r.headers| - i
  {
    hide SplitHead;
    if i < |r.headers| {
      HeadersBack(r, i + 1, last, body);
      var h := r.headers[i];
      LineBack(HeaderLine(h), HeaderLines(r.headers, i + 1, last.Then(Char('\n', Char('\n', body)))));
    } else {
      EmptyBack(body);
      LineBack(last, Char('\n', body));
    }
  }

  lemma EmptyBack(body: Text)
    ensures SplitHead(Char('\n', body)) == Some((Empty, body))
  {
  }

  /** Framing: a composed response splits back into its status line, its header lines with the content
      length behind them, and its body; and the length that is printed is the content's. */
  lemma Framed(r: Response, body: Text)
    requires OneLined(r)
    ensures var length := LengthLine(r.content.Length());
            && SplitHead(Print(r, body)) == Some((Item(StatusLine(r), LinesFrom(r.headers, 0, length)), body))
            && Digits(length.Drop(16)) && Number(length.Drop(16), 0) == r.content.Length()
  {
    hide SplitHead;
    var n := r.content.Length();
    LengthPrefix(n, NUL);
    LengthPrefix(n, '\n');
    DecimalBack(n);
    HeadersBack(r, 0, LengthLine(n), body);
    StatusStarts(r);
    LineBack(StatusLine(r), HeaderLines(r.headers, 0, LengthLine(n).Then(Char('\n', Char('\n', body)))));
  }

  /** The status line read back: the first line of a composed response is the request's protocol, a
      space, the status in decimal digits, 200 for a status of zero and with a minus sign for a negative
      one, a space and OK. */
  lemma StatusBack(r: Response, body: Text)
    requires OneLined(r) && Free(r.protocol, ' ')
    ensures SplitHead(Print(r, body)).Some? && SplitHead(Print(r, body)).value.0.Item?
    ensures var line := SplitHead(Print(r, body)).value.0.first;
            Split(Print(r, body), '\n').Some? && Split(Print(r, body), '\n').value.0 == line
    ensures var first := Split(SplitHead(Print(r, body)).value.0.first, ' ');
            && first.Some? && first.value.0 == r.protocol
            && Split(first.value.1, ' ').Some? && Split(first.value.1, ' ').value.1 == Char('O', Char('K', End))
    ensures var t := Split(Split(SplitHead(Print(r, body)).value.0.first, ' ').value.1, ' ').value.0;
            if r.status < 0 then t.Char? && t.head == '-' && t.tail.Char? && Digits(t.tail) && Number(t.tail, 0) == -r.status
            else t.Char? && Digits(t) && Number(t, 0) == if r.status == 0 then 200 else r.status
  {
    hide SplitHead, Split, Sub, HeaderLines, LengthLine, LinesFrom, Decimal, Number;
    Framed(r, body);
    SplitJoined(StatusLine(r), '\n', HeaderLines(r.headers, 0, LengthLine(r.content.Length()).Then(Char('\n', Char('\n', body)))));
    var n := if r.status != 0 then r.status else 200;
    SignedBack(n);
    OkIs();
    assert Signed(n).Then(Lit(" OK")) == Signed(n).Then(Char(' ', Char('O', Char('K', End))));
    SplitJoined(r.protocol, ' ', Signed(n).Then(Char(' ', Char('O', Char('K', End)))));
    SplitJoined(Signed(n), ' ', Char('O', Char('K', End)));
  }

  lemma OkIs()
    ensures Lit(" OK") == Char(' ', Char('O', Char('K', End)))
  {
    var s: seq<byte> := " OK";
    assert Sub(s, 3, 3) == End;
    assert Sub(s, 2, 3) == Char('K', End);
    assert Sub(s, 1, 3) == Char('O', Char('K', End));
  }

  lemma SignedBack(n: int)
    ensures var t := Signed(n);
            && Free(t, ' ') && t.Char?
            && if n < 0 then t.head == '-' && t.tail.Char? && Digits(t.tail) && Number(t.tail, 0) == -n
               else Digits(t) && Number(t, 0) == n
  {
    hide Decimal, Number;
    var m := if n < 0 then -n else n;
    DecimalBack(m);
    DecimalStarts(m);
    DigitsFree(Decimal(m), ' ');
    DigitsFree(Decimal(m), NUL);
  }

  lemma DecimalStarts(n: nat)
    ensures Decimal(n).Char?
  {
  }

  lemma {:induction false} LinesNth(headers: seq<Header>, i: nat, last: Text, k: nat)
    requires i <= k <= |headers|
    ensures LinesFrom(headers, i, last).Len() == |headers| - i + 1
    ensures LinesFrom(headers, i, last).Nth(k - i) == if k == |headers| then last else HeaderLine(headers[k])
    decreases k - i
  {
    LinesCount(headers, i, last);
    if i < k {
      LinesNth(headers, i + 1, last, k);
    }
  }

  /** The header lines read back: as many as headers, and the k-th is its name, a colon, a space and its
      value. */
  lemma HeaderBack(r: Response, body: Text, k: nat)
    requires OneLined(r) && k < |r.headers| && Free(r.headers[k].key, ':')
    ensures SplitHead(Print(r, body)).Some? && SplitHead(Print(r, body)).value.0.Len() == |r.headers| + 2
    ensures var line := Split(SplitHead(Print(r, body)).value.0.Nth(k + 1), ':');
            line.Some? && line.value.0 == r.headers[k].key && line.value.1 == Char(' ', r.headers[k].value)
  {
    hide SplitHead, Split, StatusLine, LengthLine, Print;
    Framed(r, body);
    LinesNth(r.headers, 0, LengthLine(r.content.Length()), k);
    SplitJoined(r.headers[k].key, ':', Char(' ', r.headers[k].value));
  }

  /** And behind them the length: its name, a colon, a space and the decimal digits of how many bytes the
      content has; then, behind an empty line, the body. */
  lemma LengthBack(r: Response, body: Text)
    requires OneLined(r)
    ensures SplitHead(Print(r, body)).Some? && SplitHead(Print(r, body)).value.0.Len() == |r.headers| + 2
    ensures SplitHead(Print(r, body)).value.1 == body
    ensures var line := Split(SplitHead(Print(r, body)).value.0.Nth(|r.headers| + 1), ':');
            && line.Some? && line.value.0 == Lit("Content-Length")
    ensures var t := Split(SplitHead(Print(r, body)).value.0.Nth(|r.headers| + 1), ':').value.1;
            && t.Char? && t.head == ' ' && t.tail.Char? && Digits(t.tail)
            && Number(t.tail, 0) == if r.content.FileFd? then r.content.size else |r.content.bytes|
  {
    hide SplitHead, Split, StatusLine, Print, Decimal, Number, Sub;
    var n := r.content.Length();
    Framed(r, body);
    LinesNth(r.headers, 0, LengthLine(n), |r.headers|);
    LengthName();
    DecimalBack(n);
    DecimalStarts(n);
    ThenAssoc(Lit("Content-Length"), Char(':', Char(' ', End)), Decimal(n));
    assert Char(' ', End).Then(Decimal(n)) == Char(' ', Decimal(n));
    assert Char(':', Char(' ', End)).Then(Decimal(n)) == Char(':', Char(' ', Decimal(n)));
    NameFree();
    SplitJoined(Lit("Content-Length"), ':', Char(' ', Decimal(n)));
  }

  lemma LengthName()
    ensures Lit(CONTENT_LENGTH) == Lit("Content-Length").Then(Char(':', Char(' ', End)))
  {
    hide Sub;
    var s, name: seq<byte> := CONTENT_LENGTH, "Content-Length";
    SubJoins(s, 0, 14, 16);
    SubMoves(s, 0, name, 0, 14);
    LastTwo(s);
  }

  lemma LastTwo(s: seq<byte>)
    requires |s| == 16
    ensures Sub(s, 14, 16) == Char(s[14], Char(s[15], End))
  {
    assert Sub(s, 16, 16) == End;
    assert Sub(s, 15, 16) == Char(s[15], End);
  }

  lemma NameFree()
    ensures Free(Lit("Content-Length"), ':')
  {
    hide Sub;
    var name: seq<byte> := "Content-Length";
    SubFree(name, 0, |name|, ':');
    SubFree(name, 0, |name|, NUL);
  }

  /** What is sent of a content: the string at its first byte, and nothing of an open file. */
  lemma SentIs(c: Content)
    ensures if c.FileFd? then c.Sent() == End
            else Terminated(c.bytes + [NUL], 0) && c.Sent() == CStr(c.bytes + [NUL], 0)
    ensures c.Bytes() == if c.FileFd? then [] else c.bytes
  {
    hide Sub, Before, CStr;
    if !c.FileFd? {
      var t := c.bytes + [NUL];
      var m := Before(c.bytes, |c.bytes|);
      BeforeIs(c.bytes, |c.bytes|);
      assert t[|c.bytes|] == NUL;
      EndOfIs(t, 0, m);
      SubMoves(t, 0, c.bytes, 0, m);
    } else {
      NothingSent(c);
    }
  }

  lemma StatusStarts(r: Response)
    ensures StatusLine(r).Char?
  {
  }

  /** A body that is in memory arrives with the announced number of bytes if and only if it holds no
      NUL. */
  lemma BodyCount(r: Response)
    requires !r.content.FileFd?
    ensures var body := r.content.Bytes();
            r.content.Sent().Len() == r.content.Length() <==>
            forall i :: 0 <= i < |body| ==> body[i] != NUL
  {
    var body := r.content.Bytes();
    SubLen(body, 0, Before(body, |body|));
    BeforeAll(body, |body|);
  }

  /** HTTP/1.1 200 OK with one NUL as its body. */
  function NulBody(): Response {
    Response(Lit("HTTP/1.1"), 200, [], Str([NUL]))
  }

  /** A response of which less is composed than is announced. */
  lemma NulBodyExample()
    ensures var r := NulBody(); Printable(r) && AllFit(r) && r.content.Length() == 1 && r.content.Sent() == End
  {
    hide Sub, Decimal, Pow2;
    StatusLineOk(NulBody());
    NothingBefore();
  }

  lemma NothingBefore()
    ensures Str([NUL]).Sent() == End
  {
    assert Before([NUL], 1) == 0;
  }

  lemma StatusLineOk(r: Response)
    requires r.protocol == Lit("HTTP/1.1") && r.status == 200
    ensures !StatusLine(r).Has(NUL) && LineFits(StatusLine(r))
  {
    hide Sub, Decimal, Pow2;
    var http: seq<byte>, ok: seq<byte> := "HTTP/1.1", " OK";
    var rest := Decimal(200).Then(Lit(ok));
    SubLen(http, 0, |http|);
    SubLen(ok, 0, |ok|);
    Pow2Values();
    DecimalLen(200, 8);
    LenThen(Decimal(200), Lit(ok));
    LenThen(Lit(http), Char(' ', rest));
    SubFree(http, 0, |http|, NUL);
    SubFree(ok, 0, |ok|, NUL);
    DecimalBack(200);
    DigitsFree(Decimal(200), NUL);
    HasThen(Decimal(200), Lit(ok), NUL);
    HasThen(Lit(http), Char(' ', rest), NUL);
  }

  lemma {:induction false} LinesCount(headers: seq<Header>, i: nat, last: Text)
    requires i <= |headers|
    ensures LinesFrom(headers, i, last).Len() == |headers| - i + 1
    decreases |headers| - i
  {
    if i < |headers| {
      LinesCount(headers, i + 1, last);
    }
  }

  lemma {:induction false} SameLines(a: seq<Header>, b: seq<Header>, i: nat, x: Text, y: Text)
    requires i <= |a| && i <= |b| && LinesFrom(a, i, x) == LinesFrom(b, i, y)
    ensures |a| == |b| && x == y && forall k :: i <= k < |a| ==> HeaderLine(a[k]) == HeaderLine(b[k])
    decreases |a| - i
  {
    LinesCount(a, i, x);
    LinesCount(b, i, y);
    if i < |a| {
      SameLines(a, b, i + 1, x, y);
    }
  }

  /** The split is the only one: responses that print alike are alike in their status line, in every
      header whose name has no colon, in the announced length and in the body. */
  lemma FramedUniquely(r: Response, body: Text, r': Response, body': Text, k: nat)
    requires OneLined(r) && OneLined(r') && Print(r, body) == Print(r', body')
    ensures StatusLine(r) == StatusLine(r') && |r.headers| == |r'.headers| && body == body'
    ensures r.content.Length() == r'.content.Length()
    ensures k < |r.headers| && Free(r.headers[k].key, ':') && Free(r'.headers[k].key, ':') ==>
              r.headers[k] == r'.headers[k]
  {
    hide SplitHead, Print, StatusLine, LinesFrom, LengthLine, Number;
    Framed(r, body);
    Framed(r', body');
    SameLines(r.headers, r'.headers, 0, LengthLine(r.content.Length()), LengthLine(r'.content.Length()));
    if k < |r.headers| && Free(r.headers[k].key, ':') && Free(r'.headers[k].key, ':') {
      SplitJoined(r.headers[k].key, ':', Char(' ', r.headers[k].value));
      SplitJoined(r'.headers[k].key, ':', Char(' ', r'.headers[k].value));
    }
  }
}
