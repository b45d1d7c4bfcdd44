/** What a request says, read off its text with no buffer, pointer or cursor: the reference the
    in-place parser is measured against. Every cut is made at the first delimiter of the text that
    is left, and a NUL byte ends that text. */
module HttpGrammar {
  import opened Wrappers
  import opened CStrings

  /** A header field. tight: the colon was the last byte of its line, so no value text exists. */
  datatype Field = Field(name: Text, value: Text, tight: bool)

  datatype QueryArg = QueryArg(key: Text, value: Text)

  datatype Message = Message(
    mask: int,
    path: Text,
    query: List<QueryArg>,
    protocol: Text,
    headers: List<Field>,
    rest: Text)

  /** A method name, how many of its bytes the parser steps over, and its mask. */
  datatype MethodName = MethodName(name: Text, skip: nat, mask: int)

  function Lit(s: seq<byte>): Text {
    Sub(s, 0, |s|)
  }

  /** Every name is stepped over whole but CONNECT, of which the last byte is left. */
  const METHOD_NAMES: seq<MethodName> := [
    MethodName(Lit("GET"), 3, 1), MethodName(Lit("POST"), 4, 4), MethodName(Lit("PUT"), 3, 8),
    MethodName(Lit("DELETE"), 6, 16), MethodName(Lit("PATCH"), 5, 256), MethodName(Lit("HEAD"), 4, 2),
    MethodName(Lit("OPTIONS"), 7, 64), MethodName(Lit("TRACE"), 5, 128), MethodName(Lit("CONNECT"), 6, 32)]

  /** The text before and after the first c, looked for up to the first NUL. */
  function Split(t: Text, c: byte): (r: Option<(Text, Text)>)
    ensures r.Some? ==> r.value.0.Len() + 1 + r.value.1.Len() == t.Len()
  {
    match t
    case End => None
    case Char(x, more) =>
      if x == c then Some((End, more))
      else if x == NUL then None
      else match Split(more, c)
        case None => None
        case Some(r) => Some((Char(x, r.0), r.1))
  }

  /** A known method is recognised by four bytes: the name's first four, or GET and PUT with the
      space behind them. */
  function Opening(m: MethodName): Text {
    m.name.Then(Char(' ', End)).Take(4)
  }

  predicate Opens(t: Text, m: MethodName) {
    4 <= t.Len() && t.Take(4) == Opening(m)
  }

  function MethodFrom(t: Text, k: nat): Option<MethodName>
    requires k <= |METHOD_NAMES|
    decreases |METHOD_NAMES| - k
  {
    if k == |METHOD_NAMES| then None
    else if Opens(t, METHOD_NAMES[k]) then Some(METHOD_NAMES[k])
    else MethodFrom(t, k + 1)
  }

  function MethodOf(t: Text): Option<MethodName> {
    MethodFrom(t, 0)
  }

  function TrimSpaces(t: Text): Text {
    if t.Char? && t.head == ' ' then TrimSpaces(t.tail) else t
  }

  function QueryPairs(t: Text): List<QueryArg>
    decreases t.Len()
  {
    match Split(t, '=')
    case None => Empty
    case Some(kr) =>
      match Split(kr.1, '&')
      case None => Item(QueryArg(kr.0, kr.1), Empty)
      case Some(vr) => Item(QueryArg(kr.0, vr.0), QueryPairs(vr.1))
  }

  function PathOf(target: Text): Text {
    match Split(target, '?')
    case None => target
    case Some(pq) => pq.0
  }

  function QueryOf(target: Text): List<QueryArg> {
    match Split(target, '?')
    case None => Empty
    case Some(pq) => QueryPairs(pq.1)
  }

  /** The header field of a line with a colon; the value starts behind the colon and one more
      byte. */
  function FieldOf(line: Text): Option<Field> {
    match Split(line, ':')
    case None => None
    case Some(nv) => Some(Field(nv.0, nv.1.Drop(1), nv.1.End?))
  }

  /** The line at the head of the header section and the text behind its CR and one more byte;
      nothing once a line has fewer than five bytes. */
  function LineOf(t: Text): (r: Option<(Text, Text)>)
    ensures r.Some? ==> r.value.1.Len() < t.Len()
  {
    match Split(t, '\r')
    case None => None
    case Some(lr) => if lr.0.Len() < 5 then None else Some((lr.0, lr.1.Drop(1)))
  }

  function Fields(t: Text): List<Field>
    decreases t.Len()
  {
    match LineOf(t)
    case None => Empty
    case Some(lr) =>
      match FieldOf(lr.0)
      case None => Fields(lr.1)
      case Some(f) => Item(f, Fields(lr.1))
  }

  /** What is left behind the header section: the short line that ended it, from its CR on. */
  function Leave(t: Text): Text
    decreases t.Len()
  {
    match LineOf(t)
    case Some(lr) => Leave(lr.1)
    case None =>
      match Split(t, '\r')
      case None => t
      case Some(lr) => Char('\r', lr.1)
  }

  /** The protocol and the text behind the request line. */
  function ProtocolOf(t: Text): Option<(Text, Text)> {
    if t.Len() < 11 || t.Take(4) != Lit("HTTP") then None
    else match Split(t, '\r')
      case None => None
      case Some(pr) => Some((pr.0, pr.1.Drop(1)))
  }

  /** The target and the text behind it. */
  function TargetOf(t: Text): Option<(Text, Text)> {
    if t.Len() < 13 || t.head != '/' then None else Split(t, ' ')
  }

  function Tokenize(t: Text): Option<Message> {
    match MethodOf(t)
    case None => None
    case Some(m) =>
      match TargetOf(TrimSpaces(t.Drop(m.skip)))
      case None => None
      case Some(ta) =>
        match ProtocolOf(ta.1)
        case None => None
        case Some(pr) => Some(Message(m.mask, PathOf(ta.0), QueryOf(ta.0), pr.0, Fields(pr.1), Leave(pr.1)))
  }
}
