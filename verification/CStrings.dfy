/** Zero-terminated strings. */
module CStrings {
  import opened Bytes

  function Zeros(n: nat): seq<Byte> {
    seq(n, _ => 0)
  }

  /** Up to the first zero byte. */
  function CString(s: seq<Byte>): (c: seq<Byte>)
    ensures c <= s && (forall k :: 0 <= k < |c| ==> c[k] != 0)
    ensures |c| < |s| ==> s[|c|] == 0
  {
    if s == [] || s[0] == 0 then [] else [s[0]] + CString(s[1..])
  }

  lemma {:induction false} CStringIsPrefix(s: seq<Byte>, c: seq<Byte>)
    requires c <= s && 0 !in c && (|c| < |s| ==> s[|c|] == 0)
    ensures CString(s) == c
  {
    if c == [] {
    } else {
      assert c[0] in c;
      CStringIsPrefix(s[1..], c[1..]);
    }
  }

  lemma CStringEnds(s: seq<Byte>)
    requires 0 in s
    ensures |CString(s)| < |s|
  {
    assert CString(s) == s[..|CString(s)|];
  }

  lemma CStringAt(s: seq<Byte>, k: nat)
    requires k <= |CString(s)|
    ensures k < |CString(s)| ==> CString(s)[k] == s[k] != 0
    ensures k == |CString(s)| < |s| ==> s[k] == 0
  {}

  lemma CStringPadded(s: seq<Byte>, t: seq<Byte>)
    requires t != [] && t[0] == 0
    ensures CString(s + t) == CString(s)
    decreases |s|
  {
    if s != [] {
      assert (s + t)[1..] == s[1..] + t;
      CStringPadded(s[1..], t);
    }
  }

  /** strncpy: the string, filled up with zeros. */
  function Copied(s: seq<Byte>): (c: seq<Byte>)
    ensures |c| == |s|
  {
    CString(s) + Zeros(|s| - |CString(s)|)
  }

  lemma CopiedParts(s: seq<Byte>, i: nat)
    requires i <= |s| && (forall k :: 0 <= k < i ==> s[k] != 0) && (i < |s| ==> s[i] == 0)
    ensures Copied(s) == s[..i] + Zeros(|s| - i)
  {
    CStringIsPrefix(s, s[..i]);
  }

  /** strncpy inside one buffer, in ascending order. */
  method StrNCopyDown(a: array<Byte>, from: nat, n: nat)
    requires from + n <= a.Length
    modifies a
    ensures a[..n] == Copied(old(a[from..from + n]))
    ensures a[n..] == old(a[n..])
  {
    hide CString, Copied;
    ghost var s := a[from..from + n];
    var i := 0;
    while i < n && a[from + i] != 0
      invariant i <= n
      invariant forall k :: 0 <= k < i ==> a[k] == s[k] != 0
      invariant forall k :: i <= k < a.Length ==> a[k] == old(a[k])
    {
      a[i] := a[from + i];
      i := i + 1;
    }
    CopiedParts(s, i);
    ghost var length := i;
    while i < n
      invariant length <= i <= n
      invariant forall k :: 0 <= k < length ==> a[k] == s[k]
      invariant forall k :: length <= k < i ==> a[k] == 0
      invariant forall k :: n <= k < a.Length ==> a[k] == old(a[k])
    {
      a[i] := 0;
      i := i + 1;
    }
    assert a[..n] == s[..length] + Zeros(n - length);
  }
}
