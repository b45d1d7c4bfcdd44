/** Printing a request and parsing it gives the request back. */
module HttpRoundTrip {
  import opened Wrappers
  import opened CStrings
  import opened KeyValue
  import opened HttpScan
  import opened HttpInPlace
  import opened HttpCorrectness
  import G = HttpGrammar

  datatype Request = Request(
    name: nat,
    spaces: nat,
    path: Text,
    query: List<G.QueryArg>,
    protocol: Text,
    headers: List<G.Field>,
    body: Text)

  function Spaces(k: nat, more: Text): Text {
    if k == 0 then more else Char(' ', Spaces(k - 1, more))
  }

  function PrintQuery(q: List<G.QueryArg>): Text {
    match q
    case Empty => End
    case Item(a, more) =>
      a.key.Then(Char('=', if more.Empty? then a.value else a.value.Then(Char('&', PrintQuery(more)))))
  }

  function PrintTarget(r: Request): Text {
    if r.query.Empty? then r.path else r.path.Then(Char('?', PrintQuery(r.query)))
  }

  /** name: value, or, for a tight field, whose value is empty, just name: with nothing behind it. */
  function PrintField(f: G.Field): Text {
    f.name.Then(Char(':', if f.tight then End else Char(' ', f.value)))
  }

  function PrintFields(headers: List<G.Field>, body: Text): Text {
    match headers
    case Empty => Char('\r', Char('\n', body))
    case Item(f, more) => PrintField(f).Then(Char('\r', Char('\n', PrintFields(more, body))))
  }

  /** The protocol and all that follows. */
  function PrintRest(r: Request): Text {
    r.protocol.Then(Char('\r', Char('\n', PrintFields(r.headers, r.body))))
  }

  function Print(r: Request): Text
    requires r.name < |G.METHOD_NAMES|
  {
    G.METHOD_NAMES[r.name].name.Then(Spaces(r.spaces, PrintTarget(r).Then(Char(' ', PrintRest(r)))))
  }

  predicate Free(t: Text, c: byte) { !t.Has(NUL) && !t.Has(c) }

  predicate QueryOk(q: List<G.QueryArg>) {
    q.Empty? ||
    (Free(q.first.key, '=') && Free(q.first.value, '&') && !q.first.key.Has(' ') && !q.first.value.Has(' ')
     && QueryOk(q.rest))
  }

  predicate FieldsOk(headers: List<G.Field>) {
    headers.Empty? ||
    (var f := headers.first;
     && Free(f.name, ':') && !f.name.Has('\r') && Free(f.value, '\r') && (f.tight ==> f.value.End?)
     && FieldsOk(headers.rest))
  }

  /** A line of fewer than five bytes ends the header section. */
  predicate Short(f: G.Field) { PrintField(f).Len() < 5 }

  predicate NoneShort(headers: List<G.Field>) {
    headers.Empty? || (!Short(headers.first) && NoneShort(headers.rest))
  }

  /** The fields in front of the first short line. */
  function LongPrefix(headers: List<G.Field>): List<G.Field> {
    if headers.Empty? || Short(headers.first) then Empty else Item(headers.first, LongPrefix(headers.rest))
  }

  /** What is left from the CR of the first short line on, or from the blank line's. */
  function Left(headers: List<G.Field>, body: Text): Text {
    match headers
    case Empty => Char('\r', Char('\n', body))
    case Item(f, more) => if Short(f) then Char('\r', Char('\n', PrintFields(more, body))) else Left(more, body)
  }

  /** What may be printed: no text holds a delimiter that ends it. */
  predicate WellFormed(r: Request) {
    && r.name < |G.METHOD_NAMES| && 1 <= r.spaces
    && r.path.Char? && r.path.head == '/' && Free(r.path, '?') && !r.path.Has(' ')
    && QueryOk(r.query)
    && Free(r.protocol, '\r') && 4 <= r.protocol.Len() && r.protocol.Take(4) == G.Lit("HTTP")
    && FieldsOk(r.headers)
  }

  // Texts put together and taken apart.

  lemma {:induction false} HasThen(a: Text, b: Text, c: byte)
    ensures a.Then(b).Has(c) <==> a.Has(c) || b.Has(c)
    decreases a
  {
    if a.Char? {
      HasThen(a.tail, b, c);
    }
  }

  lemma {:induction false} DropThen(a: Text, b: Text)
    ensures a.Then(b).Drop(a.Len()) == b
    decreases a
  {
    if a.Char? {
      DropThen(a.tail, b);
    }
  }

  lemma {:induction false} TakeThen(a: Text, c: byte, u: Text, v: Text, k: nat)
    requires k <= a.Len() + 1
    ensures a.Then(Char(c, u)).Take(k) == a.Then(Char(c, v)).Take(k)
    decreases a
  {
    if a.Char? && k > 0 {
      TakeThen(a.tail, c, u, v, k - 1);
    }
  }

  lemma {:induction false} TakeOf(a: Text, u: Text, k: nat)
    requires k <= a.Len()
    ensures a.Then(u).Take(k) == a.Take(k)
    decreases a
  {
    if k > 0 {
      TakeOf(a.tail, u, k - 1);
    }
  }

  /** Cutting at the first delimiter undoes joining with it. */
  lemma {:induction false} SplitJoined(a: Text, c: byte, b: Text)
    requires Free(a, c)
    ensures G.Split(a.Then(Char(c, b)), c) == Some((a, b))
    decreases a
  {
    if a.Char? {
      SplitJoined(a.tail, c, b);
    }
  }

  lemma {:induction false} SplitMissing(a: Text, c: byte)
    requires !a.Has(c)
    ensures G.Split(a, c) == None
    decreases a
  {
    if a.Char? {
      SplitMissing(a.tail, c);
    }
  }

  // The stages.

  lemma {:induction false} QueryBack(q: List<G.QueryArg>)
    requires QueryOk(q)
    ensures G.QueryPairs(PrintQuery(q)) == q
    ensures !PrintQuery(q).Has(NUL) && !PrintQuery(q).Has(' ')
    decreases q
  {
    match q
    case Empty =>
    case Item(a, more) =>
      QueryBack(more);
      var value := if more.Empty? then a.value else a.value.Then(Char('&', PrintQuery(more)));
      SplitJoined(a.key, '=', value);
      HasThen(a.key, Char('=', value), NUL);
      HasThen(a.key, Char('=', value), ' ');
      if more.Empty? {
        SplitMissing(a.value, '&');
      } else {
        SplitJoined(a.value, '&', PrintQuery(more));
        HasThen(a.value, Char('&', PrintQuery(more)), NUL);
        HasThen(a.value, Char('&', PrintQuery(more)), ' ');
      }
  }

  lemma TargetBack(r: Request)
    requires WellFormed(r)
    ensures G.PathOf(PrintTarget(r)) == r.path && G.QueryOf(PrintTarget(r)) == r.query && Free(PrintTarget(r), ' ')
    ensures PrintTarget(r).Char? && PrintTarget(r).head == '/'
  {
    QueryBack(r.query);
    if r.query.Empty? {
      SplitMissing(r.path, '?');
    } else {
      SplitJoined(r.path, '?', PrintQuery(r.query));
      HasThen(r.path, Char('?', PrintQuery(r.query)), NUL);
      HasThen(r.path, Char('?', PrintQuery(r.query)), ' ');
    }
  }

  lemma FieldBack(f: G.Field, more: Text)
    requires FieldsOk(Item(f, Empty))
    ensures G.Split(PrintField(f).Then(Char('\r', Char('\n', more))), '\r') == Some((PrintField(f), Char('\n', more)))
    ensures G.FieldOf(PrintField(f)) == Some(f)
  {
    var value := if f.tight then End else Char(' ', f.value);
    SplitJoined(f.name, ':', value);
    HasThen(f.name, Char(':', value), NUL);
    HasThen(f.name, Char(':', value), '\r');
    if !f.tight {
      assert value.Has('\r') == f.value.Has('\r') && value.Has(NUL) == f.value.Has(NUL);
      assert value.Drop(1) == f.value.Drop(0);
    }
    SplitJoined(PrintField(f), '\r', Char('\n', more));
  }

  /** Reading printed header lines gives the fields up to the first short line, and leaves what is from
      there on. */
  lemma {:induction false} FieldsBack(headers: List<G.Field>, body: Text)
    requires FieldsOk(headers)
    ensures G.Fields(PrintFields(headers, body)) == LongPrefix(headers)
    ensures G.Leave(PrintFields(headers, body)) == Left(headers, body)
    decreases headers
  {
    hide PrintField, G.FieldOf;
    match headers
    case Empty =>
      assert G.Split(PrintFields(headers, body), '\r') == Some((End, Char('\n', body)));
    case Item(f, more) =>
      FieldBack(f, PrintFields(more, body));
      assert Char('\n', PrintFields(more, body)).Drop(1) == PrintFields(more, body).Drop(0);
      if !Short(f) {
        FieldsBack(more, body);
      }
  }

  /** All fields are in front of the first short line exactly when there is none. */
  lemma {:induction false} LongPrefixIs(headers: List<G.Field>, body: Text)
    ensures LongPrefix(headers) == headers <==> NoneShort(headers)
    ensures NoneShort(headers) ==> Left(headers, body) == Char('\r', Char('\n', body))
    decreases headers
  {
    if headers.Item? {
      LongPrefixIs(headers.rest, body);
    }
  }

  lemma {:induction false} LongNth(headers: List<G.Field>, k: nat)
    requires k < LongPrefix(headers).Len()
    ensures k < headers.Len() && LongPrefix(headers).Nth(k) == headers.Nth(k)
    decreases headers
  {
    if k > 0 {
      LongNth(headers.rest, k - 1);
    }
  }

  lemma {:induction false} LeftIs(headers: List<G.Field>, body: Text)
    ensures Left(headers, body).Char?
    decreases headers
  {
    if headers.Item? && !Short(headers.first) {
      LeftIs(headers.rest, body);
    }
  }

  lemma ProtocolBack(r: Request)
    requires WellFormed(r)
    ensures G.ProtocolOf(PrintRest(r)) ==
            if PrintRest(r).Len() < 11 then None else Some((r.protocol, PrintFields(r.headers, r.body)))
  {
    var more := PrintFields(r.headers, r.body);
    assert Char('\n', more).Drop(1) == more.Drop(0);
    SplitJoined(r.protocol, '\r', Char('\n', more));
    TakeOf(r.protocol, Char('\r', Char('\n', PrintFields(r.headers, r.body))), 4);
  }

  lemma {:induction false} SpacesBack(k: nat, t: Text)
    requires t.Char? && t.head != ' '
    ensures G.TrimSpaces(Spaces(k, t)) == t
    decreases k
  {
    if k > 0 {
      SpacesBack(k - 1, t);
    }
  }

  /** No two methods open alike, and every name fills its opening. */
  lemma OpeningsDiffer(j: nat, k: nat)
    requires j < k < |G.METHOD_NAMES|
    ensures G.Opening(G.METHOD_NAMES[j]) != G.Opening(G.METHOD_NAMES[k])
  {
  }

  lemma OpeningsFull(k: nat)
    requires k < |G.METHOD_NAMES|
    ensures 3 <= G.METHOD_NAMES[k].name.Len()
  {
  }

  lemma {:induction false} MethodFromBack(t: Text, j: nat, k: nat)
    requires j <= k < |G.METHOD_NAMES| && G.Opens(t, G.METHOD_NAMES[k])
    ensures G.MethodFrom(t, j) == Some(G.METHOD_NAMES[k])
    decreases k - j
  {
    if j < k {
      OpeningsDiffer(j, k);
      MethodFromBack(t, j + 1, k);
    }
  }

  lemma MethodBack(k: nat, more: Text)
    requires k < |G.METHOD_NAMES|
    ensures G.MethodOf(G.METHOD_NAMES[k].name.Then(Char(' ', more))) == Some(G.METHOD_NAMES[k])
  {
    var m := G.METHOD_NAMES[k];
    OpeningsFull(k);
    TakeThen(m.name, ' ', more, End, 4);
    LenThen(m.name, Char(' ', more));
    MethodFromBack(m.name.Then(Char(' ', more)), 0, k);
  }

  /** The place of CONNECT in the method table. */
  const CONNECT: nat := 8

  /** Every method's name is as long as the parser steps over, but CONNECT's. */
  lemma SkipIs(k: nat)
    requires k < |G.METHOD_NAMES|
    ensures G.METHOD_NAMES[k].skip == G.METHOD_NAMES[k].name.Len() - (if k == CONNECT then 1 else 0)
  {
  }

  lemma {:induction false} DropAllButLast(a: Text, last: byte, more: Text)
    ensures a.Then(Char(last, End)).Then(more).Drop(a.Len()) == Char(last, more)
    decreases a
  {
    if a.Char? {
      DropAllButLast(a.tail, last, more);
    }
  }

  lemma ConnectIs()
    ensures |G.METHOD_NAMES| == 9 && G.METHOD_NAMES[CONNECT].skip == G.Lit("CONNEC").Len()
    ensures G.METHOD_NAMES[CONNECT].name == G.Lit("CONNEC").Then(Char('T', End))
  {
  }

  /** What a print reads as: the header section ends at its first short line. */
  ghost function MessageOf(r: Request): G.Message
    requires r.name < |G.METHOD_NAMES|
  {
    G.Message(G.METHOD_NAMES[r.name].mask, r.path, r.query, r.protocol, LongPrefix(r.headers), Left(r.headers, r.body))
  }

  /** The two requests that do not come back: CONNECT, one byte of whose name is left in front of the
      target, and what is shorter than the parser's least protocol and headers. */
  predicate Survives(r: Request) {
    r.name != CONNECT && 11 <= PrintRest(r).Len()
  }

  lemma TargetOfBack(r: Request)
    requires WellFormed(r) && 11 <= PrintRest(r).Len()
    ensures G.TargetOf(PrintTarget(r).Then(Char(' ', PrintRest(r)))) == Some((PrintTarget(r), PrintRest(r)))
  {
    TargetBack(r);
    SplitJoined(PrintTarget(r), ' ', PrintRest(r));
    LenThen(PrintTarget(r), Char(' ', PrintRest(r)));
  }

  lemma TargetOfShort(r: Request)
    requires WellFormed(r) && PrintRest(r).Len() < 11
    ensures var t := G.TargetOf(PrintTarget(r).Then(Char(' ', PrintRest(r))));
            t.None? || t == Some((PrintTarget(r), PrintRest(r)))
  {
    TargetBack(r);
    SplitJoined(PrintTarget(r), ' ', PrintRest(r));
  }

  /** What is left behind the method's name. */
  lemma AfterMethod(r: Request)
    requires WellFormed(r)
    ensures G.MethodOf(Print(r)) == Some(G.METHOD_NAMES[r.name])
    ensures var more := PrintTarget(r).Then(Char(' ', PrintRest(r)));
            G.TrimSpaces(Print(r).Drop(G.METHOD_NAMES[r.name].skip)) ==
            if r.name == CONNECT then Char('T', Spaces(r.spaces, more)) else more
  {
    var m := G.METHOD_NAMES[r.name];
    var more := PrintTarget(r).Then(Char(' ', PrintRest(r)));
    hide G.MethodOf, PrintTarget, PrintRest, G.Lit, G.MethodFrom, G.Opens;
    assert Spaces(r.spaces, more) == Char(' ', Spaces(r.spaces - 1, more));
    MethodBack(r.name, Spaces(r.spaces - 1, more));
    SkipIs(r.name);
    TargetBack(r);
    SpacesBack(r.spaces, more);
    if r.name == CONNECT {
      ConnectIs();
      DropAllButLast(G.Lit("CONNEC"), 'T', Spaces(r.spaces, more));
    } else {
      DropThen(m.name, Spaces(r.spaces, more));
    }
  }

  /** Printing, then reading: everything comes back, in order, up to the first short header line;
      CONNECT requests and those with fewer than 11 bytes behind the target are refused. */
  lemma PrintedIsRead(r: Request)
    requires WellFormed(r)
    ensures G.Tokenize(Print(r)) == if Survives(r) then Some(MessageOf(r)) else None
  {
    AfterMethod(r);
    TargetBack(r);
    FieldsBack(r.headers, r.body);
    hide Print, PrintTarget, PrintRest, PrintFields, G.MethodOf, G.ProtocolOf, G.PathOf, G.QueryOf, G.Fields, G.Leave;
    ProtocolBack(r);
    if r.name == CONNECT {
      assert G.TargetOf(Char('T', Spaces(r.spaces, PrintTarget(r).Then(Char(' ', PrintRest(r)))))) == None;
    } else if Survives(r) {
      TargetOfBack(r);
    } else {
      TargetOfShort(r);
    }
  }

  /** The whole request comes back if and only if it survives and no header line is short. */
  lemma ComesBack(r: Request)
    requires WellFormed(r)
    ensures G.Tokenize(Print(r)) ==
            Some(G.Message(G.METHOD_NAMES[r.name].mask, r.path, r.query, r.protocol, r.headers, Char('\r', Char('\n', r.body))))
            <==> r.name != 8 && 11 <= PrintRest(r).Len()
                 && forall k :: 0 <= k < r.headers.Len() ==> 5 <= PrintField(r.headers.Nth(k)).Len()
  {
    hide G.Tokenize, Print, WellFormed, PrintRest, PrintField;
    PrintedIsRead(r);
    LongPrefixIs(r.headers, r.body);
    NoneShortIs(r.headers);
  }

  lemma {:induction false} NoneShortNth(headers: List<G.Field>, k: nat)
    requires NoneShort(headers) && k < headers.Len()
    ensures 5 <= PrintField(headers.Nth(k)).Len()
    decreases headers
  {
    hide PrintField;
    if k > 0 {
      NoneShortNth(headers.rest, k - 1);
    }
  }

  lemma {:induction false} ShortNth(headers: List<G.Field>) returns (k: nat)
    requires !NoneShort(headers)
    ensures k < headers.Len() && PrintField(headers.Nth(k)).Len() < 5
    decreases headers
  {
    hide PrintField;
    if Short(headers.first) {
      return 0;
    }
    var j := ShortNth(headers.rest);
    k := j + 1;
  }

  lemma NoneShortIs(headers: List<G.Field>)
    ensures NoneShort(headers) <==> forall k :: 0 <= k < headers.Len() ==> 5 <= PrintField(headers.Nth(k)).Len()
  {
    hide PrintField, NoneShort;
    if NoneShort(headers) {
      forall k | 0 <= k < headers.Len()
        ensures 5 <= PrintField(headers.Nth(k)).Len()
      {
        NoneShortNth(headers, k);
      }
    } else {
      var _ := ShortNth(headers);
    }
  }

  // How the grammar reads, whatever is printed.

  /** An argument is a key, an equals sign and a value up to an ampersand, or up to the end. */
  lemma ArgReads(key: Text, value: Text, more: Text)
    requires Free(key, '=')
    ensures Free(value, '&') ==>
              && G.QueryPairs(key.Then(Char('=', value.Then(Char('&', more))))) == Item(G.QueryArg(key, value), G.QueryPairs(more))
              && G.QueryPairs(key.Then(Char('=', value))) == Item(G.QueryArg(key, value), Empty)
    ensures G.QueryPairs(key) == Empty
  {
    hide G.Split;
    SplitJoined(key, '=', value.Then(Char('&', more)));
    SplitJoined(key, '=', value);
    SplitFree(key, '=');
    if Free(value, '&') {
      SplitJoined(value, '&', more);
      SplitFree(value, '&');
    }
  }

  /** A target is a path, and if it has a question mark, the arguments behind the first one. */
  lemma TargetReads(path: Text, query: Text)
    requires Free(path, '?')
    ensures G.PathOf(path) == path && G.QueryOf(path) == Empty
    ensures G.PathOf(path.Then(Char('?', query))) == path && G.QueryOf(path.Then(Char('?', query))) == G.QueryPairs(query)
  {
    hide G.Split, G.QueryPairs;
    SplitFree(path, '?');
    SplitJoined(path, '?', query);
  }

  lemma LineSplit(line: Text, c: byte, more: Text)
    requires Free(line, '\r')
    ensures G.LineOf(line.Then(Char('\r', Char(c, more)))) == if line.Len() < 5 then None else Some((line, more))
  {
    hide G.Split;
    SplitJoined(line, '\r', Char(c, more));
    assert Char(c, more).Drop(1) == more.Drop(0);
  }

  lemma FieldSplit(name: Text, d: byte, value: Text)
    requires Free(name, ':')
    ensures G.FieldOf(name.Then(Char(':', Char(d, value)))) == Some(G.Field(name, value, false))
    ensures G.FieldOf(name.Then(Char(':', End))) == Some(G.Field(name, End, true))
  {
    hide G.Split;
    SplitJoined(name, ':', Char(d, value));
    SplitJoined(name, ':', End);
    assert Char(d, value).Drop(1) == value.Drop(0);
  }

  lemma FieldsStep(line: Text, c: byte, more: Text)
    requires Free(line, '\r')
    ensures G.Fields(line.Then(Char('\r', Char(c, more)))) ==
            if line.Len() < 5 then Empty
            else if G.FieldOf(line).None? then G.Fields(more) else Item(G.FieldOf(line).value, G.Fields(more))
  {
    hide G.LineOf, G.FieldOf;
    LineSplit(line, c, more);
  }

  lemma LeaveStep(line: Text, c: byte, more: Text)
    requires Free(line, '\r')
    ensures G.Leave(line.Then(Char('\r', Char(c, more)))) == if line.Len() < 5 then Char('\r', Char(c, more)) else G.Leave(more)
  {
    hide G.LineOf, G.Split;
    LineSplit(line, c, more);
    SplitJoined(line, '\r', Char(c, more));
  }

  lemma NoLine(line: Text)
    requires Free(line, '\r')
    ensures G.Leave(line) == line && G.Fields(line) == Empty
  {
    hide G.Split;
    SplitFree(line, '\r');
  }

  /** The spaces in front of the target, and nothing else, are passed over. */
  lemma {:induction false} TrimReads(t: Text) returns (k: nat)
    ensures G.TrimSpaces(t) == t.Drop(k) && !(t.Drop(k).Char? && t.Drop(k).head == ' ')
    ensures forall i :: 0 <= i < k ==> t.Drop(i).Char? && t.Drop(i).head == ' '
    decreases t
  {
    if t.Char? && t.head == ' ' {
      var j := TrimReads(t.tail);
      k := j + 1;
      forall i | 0 <= i < k
        ensures t.Drop(i).Char? && t.Drop(i).head == ' '
      {
        if i > 0 {
          assert t.Drop(i) == t.tail.Drop(i - 1);
        }
      }
    } else {
      k := 0;
    }
  }

  /** A header is a line up to a CR, with one byte more, whatever it is: a name up to the first colon, one
      byte more, whatever it is, and a value. Without a colon the line is passed over, and one of fewer
      than five bytes ends the section, from its CR on; so does text without a CR. */
  lemma LineReads(line: Text, name: Text, d: byte, value: Text, c: byte, more: Text)
    requires Free(line, '\r') && Free(name, ':')
    ensures var fields := G.Fields(line.Then(Char('\r', Char(c, more))));
            && (line.Len() < 5 ==> fields == Empty)
            && (5 <= line.Len() && !line.Has(':') ==> fields == G.Fields(more))
            && (5 <= line.Len() && line == name.Then(Char(':', Char(d, value))) ==>
                  fields == Item(G.Field(name, value, false), G.Fields(more)))
            && (5 <= line.Len() && line == name.Then(Char(':', End)) ==>
                  fields == Item(G.Field(name, End, true), G.Fields(more)))
    ensures G.Leave(line.Then(Char('\r', Char(c, more)))) == if line.Len() < 5 then Char('\r', Char(c, more)) else G.Leave(more)
    ensures G.Leave(line) == line && G.Fields(line) == Empty
  {
    hide G.Fields, G.Leave, G.Split;
    FieldsStep(line, c, more);
    LeaveStep(line, c, more);
    NoLine(line);
    FieldSplit(name, d, value);
    if !line.Has(':') {
      SplitFree(line, ':');
    }
  }

  lemma {:induction false} SplitFree(t: Text, c: byte)
    requires !t.Has(c)
    ensures G.Split(t, c) == None
    decreases t
  {
    if t.Char? {
      SplitFree(t.tail, c);
    }
  }

  function PlainRequest(name: nat, protocol: seq<byte>, headers: List<G.Field>): Request {
    Request(name, 1, Char('/', End), Empty, G.Lit(protocol), headers, End)
  }

  /** CONNECT / HTTP/1.1 is refused. */
  lemma ConnectExample()
    ensures var r := PlainRequest(CONNECT, "HTTP/1.1", Empty); WellFormed(r) && G.Tokenize(Print(r)) == None
  {
    hide Print, G.Tokenize;
    PrintedIsRead(PlainRequest(CONNECT, "HTTP/1.1", Empty));
  }

  /** GET / HTTP with no header is refused. */
  lemma ShortExample()
    ensures var r := PlainRequest(0, "HTTP", Empty); WellFormed(r) && G.Tokenize(Print(r)) == None
  {
    hide Print, G.Tokenize;
    PrintedIsRead(PlainRequest(0, "HTTP", Empty));
  }

  /** GET / HTTP/1.1 with the header A: b loses it. */
  lemma ShortLineExample()
    ensures var r := PlainRequest(0, "HTTP/1.1", Item(G.Field(G.Lit("A"), G.Lit("b"), false), Empty));
            WellFormed(r) && G.Tokenize(Print(r)).Some? && G.Tokenize(Print(r)).value.headers == Empty
  {
    hide Print, G.Tokenize;
    var r := PlainRequest(0, "HTTP/1.1", Item(G.Field(G.Lit("A"), G.Lit("b"), false), Empty));
    PrintedIsRead(r);
  }

  /** The in-place parser accepts a received print exactly when the grammar's reading comes back, and
      then its method, path and protocol are the printed ones, and what is left at its cursor is the
      blank line and the body, or the rest from the first short line's CR on. */
  lemma RoundTripLine(r: Request, b: seq<byte>, tq: Table, th: Table, n: nat)
    requires WellFormed(r) && Received(b, n) && Sub(b, 0, n) == Print(r)
    ensures var x := RunRequest(b, tq, th, n);
            && (x.Ok() <==> Survives(r))
            && (x.Ok() ==>
                  && x.mask == G.METHOD_NAMES[r.name].mask && x.path.Some? && |x.rest.bytes| == |b|
                  && StringAt(x.rest.bytes, x.path.value, r.path)
                  && StringAt(x.rest.bytes, x.rest.protocol.value, r.protocol)
                  && Sub(x.rest.bytes, x.rest.cursor, n) == Left(r.headers, r.body))
  {
    hide RunRequest, Print, G.Tokenize, WellFormed, Survives, StringAt, Sub;
    PrintedIsRead(r);
    AcceptsSame(b, tq, th, n);
    if RunRequest(b, tq, th, n).Ok() {
      LineDelivered(b, tq, th, n);
      CursorIs(b, tq, th, n);
    }
  }

  /** The k-th printed pair comes back as the k-th pair of the query table, as far as it is large. */
  lemma RoundTripQuery(r: Request, b: seq<byte>, tq: Table, th: Table, n: nat, k: nat)
    requires WellFormed(r) && Survives(r) && Received(b, n) && Sub(b, 0, n) == Print(r) && Clean(tq)
    ensures var x := RunRequest(b, tq, th, n);
            && |x.query.pairs| == Min(tq.capacity, r.query.Len())
            && (k < |x.query.pairs| ==>
                  && StringAt(x.rest.bytes, x.query.pairs[k].key, r.query.Nth(k).key)
                  && StringAt(x.rest.bytes, x.query.pairs[k].value, r.query.Nth(k).value))
  {
    hide RunRequest, Print, G.Tokenize, WellFormed, Survives, StringAt, Sub;
    PrintedIsRead(r);
    AcceptsSame(b, tq, th, n);
    QueryDelivered(b, tq, th, n, k);
  }

  // Printed text without NULs in its body has no NULs.

  lemma {:induction false} FieldsNulFree(headers: List<G.Field>, body: Text)
    requires FieldsOk(headers) && !body.Has(NUL)
    ensures !PrintFields(headers, body).Has(NUL)
    decreases headers
  {
    match headers
    case Empty =>
      assert !Char('\n', body).Has(NUL);
    case Item(f, more) =>
      FieldsNulFree(more, body);
      var next, value := PrintFields(more, body), if f.tight then End else Char(' ', f.value);
      assert !Char('\n', next).Has(NUL) && !value.Has(NUL);
      HasThen(f.name, Char(':', value), NUL);
      HasThen(PrintField(f), Char('\r', Char('\n', next)), NUL);
  }

  lemma {:induction false} SpacesNulFree(k: nat, t: Text)
    ensures Spaces(k, t).Has(NUL) <==> t.Has(NUL)
  {
    if k > 0 {
      SpacesNulFree(k - 1, t);
    }
  }

  lemma NamesNulFree(k: nat)
    requires k < |G.METHOD_NAMES|
    ensures !G.METHOD_NAMES[k].name.Has(NUL)
  {
  }

  lemma PrintNulFree(r: Request)
    requires WellFormed(r) && !r.body.Has(NUL)
    ensures !Print(r).Has(NUL)
  {
    var fields := PrintFields(r.headers, r.body);
    FieldsNulFree(r.headers, r.body);
    assert !Char('\n', fields).Has(NUL);
    HasThen(r.protocol, Char('\r', Char('\n', fields)), NUL);
    TargetBack(r);
    HasThen(PrintTarget(r), Char(' ', PrintRest(r)), NUL);
    var more := PrintTarget(r).Then(Char(' ', PrintRest(r)));
    SpacesNulFree(r.spaces, more);
    NamesNulFree(r.name);
    HasThen(G.METHOD_NAMES[r.name].name, Spaces(r.spaces, more), NUL);
  }

  /** The k-th printed header comes back as the k-th pair of the header table, as far as it is large:
      its name always, its value if and only if the colon was not printed directly before the CR. */
  lemma RoundTripHeader(r: Request, b: seq<byte>, tq: Table, th: Table, n: nat, k: nat)
    requires WellFormed(r) && Survives(r) && Received(b, n) && Sub(b, 0, n) == Print(r) && Clean(th)
    ensures var x := RunRequest(b, tq, th, n);
            && |x.rest.headers.pairs| == Min(th.capacity, LongPrefix(r.headers).Len())
            && (k < |x.rest.headers.pairs| ==>
                  && k < r.headers.Len()
                  && var p, f := x.rest.headers.pairs[k], r.headers.Nth(k);
                  && StringAt(x.rest.bytes, p.key, f.name)
                  && (!f.tight ==> StringAt(x.rest.bytes, p.value, f.value))
                  && (f.tight && !r.body.Has(NUL) ==> !StringAt(x.rest.bytes, p.value, f.value)))
  {
    hide RunRequest, Print, G.Tokenize, WellFormed, Survives, StringAt, Sub, LongPrefix, Left;
    PrintedIsRead(r);
    if !r.body.Has(NUL) {
      PrintNulFree(r);
    }
    AcceptsSame(b, tq, th, n);
    HeaderDelivered(b, tq, th, n, k);
    LeftIs(r.headers, r.body);
    if k < |RunRequest(b, tq, th, n).rest.headers.pairs| {
      LongNth(r.headers, k);
    }
    if k < |RunRequest(b, tq, th, n).rest.headers.pairs| && r.headers.Nth(k).tight && !r.body.Has(NUL) {
      NulFreeText(b, 0, n);
      TightValueLost(b, tq, th, n, k);
    }
  }

  /** GET / HTTP/1.1 with the one header line Host: and nothing behind its colon. */
  function TightRequest(): Request {
    PlainRequest(0, "HTTP/1.1", Item(G.Field(G.Lit("Host"), End, true), Empty))
  }

  lemma TightRequestOk()
    ensures WellFormed(TightRequest()) && Survives(TightRequest()) && NoneShort(TightRequest().headers)
  {
  }

  /** Its Host value is empty, and what is delivered is not. */
  lemma TightExample(b: seq<byte>, tq: Table, th: Table, n: nat)
    requires Received(b, n) && Sub(b, 0, n) == Print(TightRequest()) && Clean(th) && 0 < th.capacity
    ensures var x := RunRequest(b, tq, th, n);
            && x.Ok() && 0 < |x.rest.headers.pairs|
            && !StringAt(x.rest.bytes, x.rest.headers.pairs[0].value, End)
  {
    TightRequestOk();
    LongPrefixIs(TightRequest().headers, End);
    hide RunRequest, Print, Survives, StringAt, Sub;
    RoundTripLine(TightRequest(), b, tq, th, n);
    RoundTripHeader(TightRequest(), b, tq, th, n, 0);
  }
}
