/** The growing string buffer: appending at the first NUL, counting what was asked for. */
module StringBuffer {
  import opened CStrings

  /** Where the string at p ends. */
  function EndOf(s: seq<byte>, p: nat): (e: nat)
    requires Terminated(s, p)
    ensures p <= e < |s| && s[e] == NUL
    decreases |s| - p
  {
    if s[p] == NUL then p else EndOf(s, p + 1)
  }

  /** How many of the first n bytes of src come before its first NUL. */
  function Before(src: seq<byte>, n: nat): (m: nat)
    requires n <= |src|
    ensures m <= n
  {
    if n == 0 then 0
    else var m := Before(src, n - 1); if m == n - 1 && src[n - 1] != NUL then n else m
  }

  lemma {:induction false} BeforeIs(src: seq<byte>, n: nat)
    requires n <= |src|
    ensures forall i :: 0 <= i < Before(src, n) ==> src[i] != NUL
    ensures Before(src, n) < n ==> src[Before(src, n)] == NUL
    decreases n
  {
    if n > 0 {
      BeforeIs(src, n - 1);
    }
  }

  lemma {:induction false} EndOfIs(s: seq<byte>, p: nat, e: nat)
    requires p <= e < |s| && s[e] == NUL && forall i :: p <= i < e ==> s[i] != NUL
    ensures EndOf(s, p) == e && CStr(s, p) == Sub(s, p, e)
    decreases e - p
  {
    if p < e {
      EndOfIs(s, p + 1, e);
    }
  }

  lemma {:induction false} EndOfFirst(s: seq<byte>, p: nat)
    requires Terminated(s, p)
    ensures forall i :: p <= i < EndOf(s, p) ==> s[i] != NUL
    decreases |s| - p
  {
    if s[p] != NUL {
      EndOfFirst(s, p + 1);
    }
  }

  lemma {:induction false} SubJoins(s: seq<byte>, p: nat, q: nat, e: nat)
    requires p <= q <= e <= |s|
    ensures Sub(s, p, e) == Sub(s, p, q).Then(Sub(s, q, e))
    decreases q - p
  {
    if p < q {
      SubJoins(s, p + 1, q, e);
    }
  }

  lemma {:induction false} SubMoves(s: seq<byte>, p: nat, t: seq<byte>, q: nat, m: nat)
    requires p + m <= |s| && q + m <= |t| && forall i :: p <= i < p + m ==> s[i] == t[i - p + q]
    ensures Sub(s, p, p + m) == Sub(t, q, q + m)
    decreases m
  {
    if m > 0 {
      SubMoves(s, p + 1, t, q + 1, m - 1);
    }
  }

  /** strncat on values: t is s with the first bytes of src, up to n or to a NUL, at its end. */
  ghost predicate Appended(s: seq<byte>, t: seq<byte>, src: seq<byte>, n: nat)
    requires Terminated(s, 0) && n <= |src|
  {
    var e, m := EndOf(s, 0), Before(src, n);
    && |t| == |s| && e + m < |t| && t[e + m] == NUL
    && (forall i :: 0 <= i < e ==> t[i] == s[i])
    && (forall i :: e <= i < e + m ==> t[i] == src[i - e])
    && (forall i :: e + m < i < |s| ==> t[i] == s[i])
  }

  /** The string grew by exactly those bytes. */
  lemma AppendedText(s: seq<byte>, t: seq<byte>, src: seq<byte>, n: nat)
    requires Terminated(s, 0) && n <= |src| && Appended(s, t, src, n)
    ensures Terminated(t, 0) && EndOf(t, 0) == EndOf(s, 0) + Before(src, n)
    ensures CStr(t, 0) == CStr(s, 0).Then(Sub(src, 0, Before(src, n)))
  {
    hide CStr, Sub, EndOf, Before;
    var e, m := EndOf(s, 0), Before(src, n);
    EndOfFirst(s, 0);
    BeforeIs(src, n);
    EndOfIs(t, 0, e + m);
    EndOfIs(s, 0, e);
    SubJoins(t, 0, e, e + m);
    SubMoves(t, 0, s, 0, e);
    SubMoves(t, e, src, 0, m);
  }

  /** string_t. Growth asks an allocator that gives more than was asked for. */
  class StrBuf {
    var buf: array<byte>
    var len: nat

    /** The string in the buffer ends at len or before, and the buffer ends behind len. */
    ghost predicate Valid()
      reads this, buf
    {
      len < buf.Length && Terminated(buf[..], 0) && EndOf(buf[..], 0) <= len
    }

    ghost function Value(): Text
      requires Valid()
      reads this, buf
    {
      CStr(buf[..], 0)
    }

    /** The counted length is the string's. */
    ghost predicate Exact()
      requires Valid()
      reads this, buf
    {
      EndOf(buf[..], 0) == len
    }

    constructor (capacity: nat)
      requires 0 < capacity
      ensures Valid() && Exact() && fresh(buf) && buf.Length == capacity && len == 0 && Value() == End
    {
      buf := new byte[capacity](_ => NUL);
      len := 0;
      new;
      EndOfIs(buf[..], 0, 0);
    }
  }

  /** strncat */
  method StrNCat(buf: array<byte>, src: seq<byte>, n: nat)
    requires Terminated(buf[..], 0) && n <= |src| && EndOf(buf[..], 0) + n < buf.Length
    modifies buf
    ensures Appended(old(buf[..]), buf[..], src, n)
    ensures var e, m := old(EndOf(buf[..], 0)), Before(src, n);
            && e + m < buf.Length && buf[e + m] == NUL && (forall i :: 0 <= i < m ==> buf[e + i] == src[i])
            && forall i :: 0 <= i < e || e + m < i < buf.Length ==> buf[i] == old(buf[i])
  {
    hide Sub, CStr;
    ghost var s: seq<byte> := buf[..];
    var e := 0;
    while buf[e] != NUL
      invariant e < buf.Length && Terminated(s, e) && EndOf(s, e) == EndOf(s, 0) && buf[..] == s
      decreases buf.Length - e
    {
      assert Terminated(s, e + 1) by {
        var z :| e <= z < |s| && s[z] == NUL;
        assert z != e;
      }
      e := e + 1;
    }
    var m := 0;
    while m < n && src[m] != NUL
      invariant m <= n && Before(src, m) == m && e == EndOf(s, 0)
      invariant forall i :: e <= i < e + m ==> buf[i] == src[i - e]
      invariant forall i :: 0 <= i < |s| && !(e <= i < e + m) ==> buf[i] == s[i]
    {
      buf[e + m] := src[m];
      m := m + 1;
    }
    buf[e + m] := NUL;
    BeforeStops(src, m, n);
  }

  lemma {:induction false} BeforeStops(src: seq<byte>, m: nat, n: nat)
    requires m <= n <= |src| && Before(src, m) == m && (m < n ==> src[m] == NUL)
    ensures Before(src, n) == m
    decreases n
  {
    if m < n {
      BeforeStops(src, m, n - 1);
    }
  }

  /** string_append. newCapacity and reallocOk are the allocator's answer when the buffer is too
      small; the bytes behind the old ones come as junk has it. */
  method Append(str: StrBuf?, src: seq<byte>, n: nat, newCapacity: nat, junk: byte, reallocOk: bool) returns (ok: bool)
    requires str != null ==> str.Valid() && (reallocOk ==> str.len + n < newCapacity)
    requires n <= |src|
    modifies str, if str == null then {} else {str.buf}
    ensures ok <==> str != null && (old(str.len) + n < old(str.buf.Length) || reallocOk)
    ensures str != null ==> str.Valid() && (str.buf == old(str.buf) || fresh(str.buf))
    ensures str != null && !ok ==> str.len == old(str.len) && str.buf == old(str.buf) && str.buf[..] == old(str.buf[..])
    ensures ok ==> str.buf.Length == if old(str.len) + n < old(str.buf.Length) then old(str.buf.Length) else newCapacity
    ensures ok ==>
              && str.len == old(str.len) + n && str.Value() == old(str.Value()).Then(Sub(src, 0, Before(src, n)))
              && (str.Exact() <==> old(str.Exact()) && Before(src, n) == n)
  {
    if str == null {
      return false;
    }
    if str.len + n >= str.buf.Length {
      if !reallocOk {
        return false;
      }
      Grow(str, newCapacity, junk);
    }
    ghost var s: seq<byte> := str.buf[..];
    StrNCat(str.buf, src, n);
    AppendedText(s, str.buf[..], src, n);
    str.len := str.len + n;
    return true;
  }

  /** realloc keeps the old bytes. */
  method Grow(str: StrBuf, newCapacity: nat, junk: byte)
    requires str.Valid() && str.len < newCapacity
    modifies str
    ensures str.Valid() && fresh(str.buf) && str.buf.Length == newCapacity && str.len == old(str.len)
    ensures str.Value() == old(str.Value()) && EndOf(str.buf[..], 0) == old(EndOf(str.buf[..], 0))
  {
    ghost var s: seq<byte> := str.buf[..];
    ghost var e := EndOf(s, 0);
    var newb := new byte[newCapacity](_ => junk);
    forall i | 0 <= i < newCapacity && i < str.buf.Length {
      newb[i] := str.buf[i];
    }
    ghost var t: seq<byte> := newb[..];
    EndOfFirst(s, 0);
    EndOfIs(s, 0, e);
    EndOfIs(t, 0, e);
    SubMoves(s, 0, t, 0, e);
    str.buf := newb;
  }

  /** string_reset */
  method Reset(str: StrBuf?)
    modifies str, if str == null then {} else {str.buf}
    requires str != null ==> str.Valid()
    ensures str != null ==> str.Valid() && str.Exact() && str.buf == old(str.buf) && str.len == 0 && str.Value() == End
    ensures str != null ==> forall i :: 0 <= i < str.buf.Length ==> str.buf[i] == NUL
  {
    if str != null {
      forall i | 0 <= i < str.buf.Length {
        str.buf[i] := NUL;
      }
      str.len := 0;
      EndOfIs(str.buf[..], 0, 0);
    }
  }

  // Whole histories.

  /** What a sequence of appends to an empty buffer leaves: its string and its counted length. */
  function AppendAll(calls: seq<seq<byte>>): (Text, nat) {
    if |calls| == 0 then (End, 0) else
      var src := calls[|calls| - 1];
      var before := AppendAll(calls[..|calls| - 1]);
      (before.0.Then(Sub(src, 0, Before(src, |src|))), before.1 + |src|)
  }

  ghost predicate NulFreeCalls(calls: seq<seq<byte>>) {
    forall i, j :: 0 <= i < |calls| && 0 <= j < |calls[i]| ==> calls[i][j] != NUL
  }

  /** The first NUL is exactly at the counted length if and only if no appended byte was a NUL. */
  lemma {:induction false} ExactIff(calls: seq<seq<byte>>)
    ensures AppendAll(calls).0.Len() <= AppendAll(calls).1
    ensures AppendAll(calls).0.Len() == AppendAll(calls).1 <==> NulFreeCalls(calls)
    decreases |calls|
  {
    if |calls| > 0 {
      var k := |calls| - 1;
      var src, before := calls[k], calls[..k];
      ExactIff(before);
      SubLen(src, 0, Before(src, |src|));
      LenThen(AppendAll(before).0, Sub(src, 0, Before(src, |src|)));
      BeforeIs(src, |src|);
      assert NulFreeCalls(calls) <==> NulFreeCalls(before) && forall j :: 0 <= j < |src| ==> src[j] != NUL by {
        assert forall i :: 0 <= i < k ==> before[i] == calls[i];
      }
    }
  }
}
