/** Bytes, NUL-terminated strings and the libc search the server relies on. A pointer into a buffer is
    an index into the sequence of its bytes; the string it points at is a list of bytes. */
module Wrappers {
  datatype Option<+T> = None | Some(value: T)

  datatype List<+T> = Empty | Item(first: T, rest: List<T>) {
    function Len(): nat {
      if Empty? then 0 else 1 + rest.Len()
    }

    function Nth(k: nat): T
      requires k < Len()
    {
      if k == 0 then first else rest.Nth(k - 1)
    }
  }
}

module CStrings {
  import opened Wrappers

  type byte = c: char | c as int < 256

  const NUL: byte := '\0'

  /** Some NUL stops a scan that starts at p: the condition under which C may scan at all. */
  ghost predicate Terminated(s: seq<byte>, p: nat) {
    exists i :: p <= i < |s| && s[i] == NUL
  }

  /** i holds c, and neither c nor a NUL comes before it. */
  predicate IsFirst(s: seq<byte>, p: nat, c: byte, i: nat) {
    p <= i < |s| && s[i] == c && forall j :: p <= j < i ==> s[j] != c && s[j] != NUL
  }

  /** strchr: the first c at or after p, looked for up to the first NUL. */
  function StrChr(s: seq<byte>, p: nat, c: byte): (r: Option<nat>)
    requires Terminated(s, p) && c != NUL
    ensures r.Some? ==> p <= r.value < |s| && s[r.value] == c
    decreases |s| - p
  {
    if s[p] == c then Some(p)
    else if s[p] == NUL then None
    else StrChr(s, p + 1, c)
  }

  /** strchr returns the first match, and null exactly when there is none before the first NUL. */
  lemma {:induction false} StrChrSpec(s: seq<byte>, p: nat, c: byte)
    requires Terminated(s, p) && c != NUL
    ensures var r := StrChr(s, p, c);
            if r.Some? then IsFirst(s, p, c, r.value) else forall i :: p <= i < |s| ==> !IsFirst(s, p, c, i)
    decreases |s| - p
  {
    if s[p] != c && s[p] != NUL {
      StrChrSpec(s, p + 1, c);
      forall i | p <= i < |s| && IsFirst(s, p, c, i)
        ensures IsFirst(s, p + 1, c, i)
      {
      }
    }
  }

  /** A match never lies behind a NUL. */
  lemma StrChrBefore(s: seq<byte>, p: nat, c: byte, n: nat)
    requires Terminated(s, p) && c != NUL && p <= n < |s| && s[n] == NUL
    ensures StrChr(s, p, c).Some? ==> StrChr(s, p, c).value < n
  {
    StrChrSpec(s, p, c);
  }

  /** Equal from p on. */
  ghost predicate SameFrom(s: seq<byte>, t: seq<byte>, p: nat) {
    |s| == |t| && forall j :: p <= j < |s| ==> s[j] == t[j]
  }

  /** A scan only looks forward: bytes before its start do not matter. */
  lemma {:induction false} StrChrForward(s: seq<byte>, t: seq<byte>, p: nat, c: byte)
    requires SameFrom(s, t, p) && Terminated(s, p) && c != NUL
    ensures Terminated(t, p) && StrChr(t, p, c) == StrChr(s, p, c)
    decreases |s| - p
  {
    var z :| p <= z < |s| && s[z] == NUL;
    assert t[z] == NUL && s[p] == t[p];
    if s[p] != c && s[p] != NUL {
      StrChrForward(s, t, p + 1, c);
    }
  }

  /** *p = 0 */
  function Cut(s: seq<byte>, i: nat): (r: seq<byte>)
    ensures |r| == |s|
  {
    if i < |s| then s[i := NUL] else s
  }

  /** A piece of text, first byte first. */
  datatype Text = End | Char(head: byte, tail: Text) {
    function Len(): nat {
      if End? then 0 else 1 + tail.Len()
    }

    predicate Has(c: byte) {
      Char? && (head == c || tail.Has(c))
    }

    /** This text and then the other. */
    function Then(more: Text): Text {
      if End? then more else Char(head, tail.Then(more))
    }

    /** Without its first k bytes, or as many as there are. */
    function Drop(k: nat): (r: Text)
      ensures r.Len() <= Len() && (0 < k && Char? ==> r.Len() < Len())
    {
      if k == 0 || End? then this else tail.Drop(k - 1)
    }

    /** Its first k bytes, or as many as there are. */
    function Take(k: nat): Text {
      if k == 0 || End? then End else Char(head, tail.Take(k - 1))
    }
  }

  /** The text of s[from..to). */
  function Sub(s: seq<byte>, from: nat, to: nat): Text
    requires to <= |s|
    decreases if from < to then to - from else 0
  {
    if from >= to then End else Char(s[from], Sub(s, from + 1, to))
  }

  /** The C string at p. */
  function CStr(s: seq<byte>, p: nat): Text
    requires Terminated(s, p)
    decreases |s| - p
  {
    if s[p] == NUL then End else Char(s[p], CStr(s, p + 1))
  }

  /** The text t is the C string at p. */
  ghost predicate StringAt(s: seq<byte>, p: nat, t: Text) {
    Terminated(s, p) && CStr(s, p) == t
  }

  lemma {:induction false} LenThen(a: Text, b: Text)
    ensures a.Then(b).Len() == a.Len() + b.Len()
    decreases a
  {
    if a.Char? {
      LenThen(a.tail, b);
    }
  }

  lemma {:induction false} SubLen(s: seq<byte>, from: nat, to: nat)
    requires to <= |s|
    ensures Sub(s, from, to).Len() == (if from <= to then to - from else 0)
    decreases if from < to then to - from else 0
  {
    if from < to {
      SubLen(s, from + 1, to);
    }
  }

  lemma {:induction false} SubDrop(s: seq<byte>, from: nat, to: nat, k: nat)
    requires to <= |s|
    ensures Sub(s, from, to).Drop(k) == Sub(s, from + k, to)
    decreases k
  {
    if k > 0 && from < to {
      SubDrop(s, from + 1, to, k - 1);
    }
  }

  /** A NUL on the first byte after an untouched NUL-free stretch turns exactly that stretch into a
      C string, whatever happened elsewhere. */
  lemma {:induction false} StringIn(b: seq<byte>, t: seq<byte>, p: nat, e: nat)
    requires |t| == |b| && p <= e < |b| && t[e] == NUL
    requires forall j :: p <= j < e ==> t[j] == b[j] && b[j] != NUL
    ensures StringAt(t, p, Sub(b, p, e))
    decreases e - p
  {
    if p < e {
      StringIn(b, t, p + 1, e);
    }
  }
}
