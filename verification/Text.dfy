/** Byte strings. A Go string is modelled as a sequence of characters, one per byte. */
module Text {
  type Byte = c: char | c as int < 256 witness 'a'

  type Bytes = seq<Byte>

  /** The components of a parsed URI. */
  datatype Url = Url(scheme: Bytes, host: Bytes, path: Bytes)

  predicate HasSuffix(s: string, t: string) { |t| <= |s| && s[|s| - |t|..] == t }

  /** ASCII white space. */
  predicate IsSpace(c: char) { c == ' ' || '\t' <= c <= '\r' }

  function TrimLeft(s: string): (r: string)
    ensures r == "" || !IsSpace(r[0])
  {
    if s != "" && IsSpace(s[0]) then TrimLeft(s[1..]) else s
  }

  function TrimRight(s: string): (r: string)
    ensures r == "" || !IsSpace(r[|r| - 1])
  {
    if s != "" && IsSpace(s[|s| - 1]) then TrimRight(s[..|s| - 1]) else s
  }

  function TrimSpace(s: string): string { TrimRight(TrimLeft(s)) }

  /** Blank, tab, line feed, vertical tab, form feed, carriage return. */
  const WHITE := " \t\n\U{B}\U{C}\r"

  predicate AllSpace(s: string) { forall i :: 0 <= i < |s| ==> s[i] in WHITE }

  predicate NoSpace(s: string) { forall i :: 0 <= i < |s| ==> s[i] !in WHITE }

  lemma SpaceIff(c: char)
    ensures IsSpace(c) <==> c in WHITE
  {
  }

  lemma {:induction false} TrimLeftOfPadded(pad: string, s: string)
    requires AllSpace(pad) && (s == "" || s[0] !in WHITE)
    ensures TrimLeft(pad + s) == s
  {
    if pad == "" {
      assert pad + s == s;
      if s != "" { SpaceIff(s[0]); }
    } else {
      SpaceIff(pad[0]);
      TrimLeftOfPadded(pad[1..], s);
      assert (pad + s)[1..] == pad[1..] + s;
    }
  }

  lemma TrimRightStep(s: string, c: char)
    requires c in WHITE
    ensures TrimRight(s + [c]) == TrimRight(s)
  {
    SpaceIff(c);
    assert (s + [c])[..|s|] == s;
  }

  lemma {:induction false} TrimRightOfPadded(s: string, gap: string)
    requires AllSpace(gap) && (s == "" || s[|s| - 1] !in WHITE)
    ensures TrimRight(s + gap) == s
  {
    if gap == "" {
      assert s + gap == s;
      if s != "" { SpaceIff(s[|s| - 1]); }
    } else {
      var n := |gap| - 1;
      TrimRightOfPadded(s, gap[..n]);
      TrimRightStep(s + gap[..n], gap[n]);
      assert s + gap == s + gap[..n] + [gap[n]];
    }
  }

  /** White space on both sides goes, and nothing else does. */
  lemma TrimSpaceOfPadded(pad: string, s: string, gap: string)
    requires AllSpace(pad) && AllSpace(gap) && (s == "" || (s[0] !in WHITE && s[|s| - 1] !in WHITE))
    ensures TrimSpace(pad + s + gap) == s
  {
    if s == "" {
      assert pad + s + gap == (pad + gap) + "";
      TrimLeftOfPadded(pad + gap, "");
    } else {
      Regroup(pad, s, gap);
      TrimLeftOfPadded(pad, s + gap);
      TrimRightOfPadded(s, gap);
    }
  }

  /** The position of the first `c`, or the length of the string. */
  function IndexOf(s: string, c: char): (n: nat)
    ensures n <= |s|
    ensures forall i :: 0 <= i < n ==> s[i] != c
    ensures n < |s| ==> s[n] == c
  {
    if s == "" || s[0] == c then 0 else 1 + IndexOf(s[1..], c)
  }

  lemma IndexOfIsUnique(s: string, c: char, n: nat)
    requires n <= |s| && (n < |s| ==> s[n] == c) && forall i :: 0 <= i < n ==> s[i] != c
    ensures IndexOf(s, c) == n
  {
    if n > 0 { IndexOfIsUnique(s[1..], c, n - 1); }
  }

  /** The position of the last `c`, or -1. */
  function LastIndexOf(s: string, c: char): (n: int)
    ensures -1 <= n < |s|
    ensures forall i :: n < i < |s| ==> s[i] != c
    ensures n >= 0 ==> s[n] == c
  {
    if s == "" then -1 else if s[|s| - 1] == c then |s| - 1 else LastIndexOf(s[..|s| - 1], c)
  }

  /** The pieces of `s` between consecutive occurrences of `c`. */
  function Split(s: string, c: char): (parts: seq<string>)
    ensures |parts| >= 1
    decreases |s|
  {
    var n := LastIndexOf(s, c);
    if n < 0 then [s] else Split(s[..n], c) + [s[n + 1..]]
  }

  lemma LastIndexOfIsUnique(s: string, c: char, n: int)
    requires -1 <= n < |s| && (n >= 0 ==> s[n] == c) && forall i :: n < i < |s| ==> s[i] != c
    ensures LastIndexOf(s, c) == n
  {
    if n < |s| - 1 { LastIndexOfIsUnique(s[..|s| - 1], c, n); }
  }

  lemma SplitSnoc(a: string, c: char, x: string)
    requires c !in x
    ensures Split(a + [c] + x, c) == Split(a, c) + [x]
  {
    var s := a + [c] + x;
    forall i | |a| < i < |s| ensures s[i] != c { assert s[i] == x[i - |a| - 1]; }
    LastIndexOfIsUnique(s, c, |a|);
    assert s[..|a|] == a && s[|a| + 1..] == x;
  }

  lemma SplitUnsnoc(s: string, c: char) returns (a: string, x: string)
    requires |Split(s, c)| >= 2
    ensures s == a + [c] + x && c !in x && Split(s, c) == Split(a, c) + [x]
  {
    var n := LastIndexOf(s, c);
    a, x := s[..n], s[n + 1..];
  }

  lemma Regroup(a: string, b: string, c: string)
    ensures a + b + c == a + (b + c)
  {
  }
}
