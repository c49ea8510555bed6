/** Strings as Rust sees them: sequences of Unicode scalar values, which is what Dafny's `char` is. */
module Strings {

  const NUL := '\0'
  const LF := '\n'

  /** The Unicode White_Space property, which `str::trim` uses. */
  predicate IsWhitespace(c: char) {
    var n := c as int;
    || 0x09 <= n <= 0x0D || n == 0x20 || n == 0x85 || n == 0xA0 || n == 0x1680
    || 0x2000 <= n <= 0x200A || n == 0x2028 || n == 0x2029 || n == 0x202F || n == 0x205F || n == 0x3000
  }

  /** The 25 code points with that property, one by one. */
  lemma {:induction false} WhitespaceIsListed(c: char)
    ensures IsWhitespace(c) <==>
            c as int in [
              0x09, 0x0A, 0x0B, 0x0C, 0x0D, 0x20, 0x85, 0xA0, 0x1680, 0x2000, 0x2001, 0x2002, 0x2003, 0x2004, 0x2005,
              0x2006, 0x2007, 0x2008, 0x2009, 0x200A, 0x2028, 0x2029, 0x202F, 0x205F, 0x3000]
  {
  }

  function TrimStart(s: string): string {
    if s != "" && IsWhitespace(s[0]) then TrimStart(s[1..]) else s
  }

  function TrimEnd(s: string): string {
    if s != "" && IsWhitespace(s[|s| - 1]) then TrimEnd(s[..|s| - 1]) else s
  }

  function Trim(s: string): string {
    TrimStart(TrimEnd(s))
  }

  predicate IsBlank(s: string) {
    Trim(s) == ""
  }

  /** Neither end of `s` is white space. */
  predicate IsTrimmed(s: string) {
    s != "" ==> !IsWhitespace(s[0]) && !IsWhitespace(s[|s| - 1])
  }

  lemma {:induction false} TrimStartFacts(s: string)
    ensures var t := TrimStart(s);
            && (t != "" ==> !IsWhitespace(t[0]) && s != "" && t[|t| - 1] == s[|s| - 1])
            && (t == "" <==> forall c :: c in s ==> IsWhitespace(c))
  {
    if s != "" && IsWhitespace(s[0]) {
      TrimStartFacts(s[1..]);
      assert s == [s[0]] + s[1..];
    }
  }

  lemma {:induction false} TrimEndFacts(s: string)
    ensures var t := TrimEnd(s);
            && |t| <= |s| && t == s[..|t|]
            && (t != "" ==> !IsWhitespace(t[|t| - 1]))
            && (forall c :: c in s[|t|..] ==> IsWhitespace(c))
  {
    if s != "" && IsWhitespace(s[|s| - 1]) {
      var n := |TrimEnd(s)|;
      TrimEndFacts(s[..|s| - 1]);
      assert s[n..] == s[..|s| - 1][n..] + [s[|s| - 1]];
    }
  }

  /** What trimming promises: clean ends, nothing left exactly on blank input, and a second trim changes nothing. */
  lemma {:induction false} TrimFacts(s: string)
    ensures IsTrimmed(Trim(s))
    ensures Trim(Trim(s)) == Trim(s)
    ensures IsBlank(s) <==> forall c :: c in s ==> IsWhitespace(c)
  {
    var e := TrimEnd(s);
    TrimEndFacts(s);
    TrimStartFacts(e);
    assert s == e + s[|e|..];
  }

  /** `t` stands in `s` at `i`, with nothing but white space around it. */
  predicate Padded(s: string, t: string, i: nat) {
    && i + |t| <= |s| && (forall k | 0 <= k < |t| :: s[i + k] == t[k])
    && (forall k | 0 <= k < i :: IsWhitespace(s[k])) && (forall k | i + |t| <= k < |s| :: IsWhitespace(s[k]))
  }

  /** The trimmed text is the one text with clean ends that white space surrounds in `s`. */
  lemma {:induction false} TrimIsMiddle(s: string, t: string)
    ensures Trim(s) == t <==> IsTrimmed(t) && exists i: nat :: Padded(s, t, i)
  {
    TrimFacts(s);
    var i := TrimPads(s);
    if IsTrimmed(t) && exists j: nat :: Padded(s, t, j) {
      var j: nat :| Padded(s, t, j);
      OnePadding(s, Trim(s), i, t, j);
    }
  }

  lemma {:induction false} TrimPads(s: string) returns (i: nat)
    ensures Padded(s, Trim(s), i)
  {
    var e := TrimEnd(s);
    TrimEndFacts(s);
    TrimStartPads(e);
    hide TrimStart, TrimEnd, IsWhitespace;
    i := |e| - |TrimStart(e)|;
    forall k | |e| <= k < |s| ensures IsWhitespace(s[k]) { assert s[k] in s[|e|..]; }
    assert forall k | 0 <= k < |e| :: s[k] == e[k];
  }

  lemma {:induction false} TrimStartPads(s: string)
    ensures |TrimStart(s)| <= |s| && Padded(s, TrimStart(s), |s| - |TrimStart(s)|)
  {
    if s != "" && IsWhitespace(s[0]) {
      TrimStartPads(s[1..]);
      hide IsWhitespace;
      var t := TrimStart(s);
      var i := |s| - |t|;
      forall k | 0 <= k < i ensures IsWhitespace(s[k]) { if k > 0 { assert s[k] == s[1..][k - 1]; } }
      forall k | 0 <= k < |t| ensures s[i + k] == t[k] { assert s[i + k] == s[1..][i - 1 + k]; }
    }
  }

  lemma {:induction false} OnePadding(s: string, t: string, i: nat, u: string, j: nat)
    requires Padded(s, t, i) && Padded(s, u, j) && IsTrimmed(t) && IsTrimmed(u)
    ensures t == u
  {
    hide IsWhitespace;
    assert t != "" ==> s[i] == t[0] && s[i + |t| - 1] == t[|t| - 1];
    assert u != "" ==> s[j] == u[0] && s[j + |u| - 1] == u[|u| - 1];
    if t != "" && u != "" {
      assert i == j && |t| == |u|;
    }
  }

  lemma {:induction false} TrimmedIsFixed(s: string)
    requires IsTrimmed(s)
    ensures TrimEnd(s) == s && Trim(s) == s
  {
  }

  /** Lexicographic order on scalar values, as `LessMeans` says; `Utf8.LessIsByteOrder` shows that it is byte order. */
  predicate Less(a: string, b: string)
    decreases |a|
  {
    b != "" && (a == "" || a[0] < b[0] || (a[0] == b[0] && Less(a[1..], b[1..])))
  }

  lemma {:induction false} LessTransitive(a: string, b: string, c: string)
    requires Less(a, b) && Less(b, c)
    ensures Less(a, c)
    decreases |a|
  {
    if a != "" && a[0] == b[0] && b[0] == c[0] {
      LessTransitive(a[1..], b[1..], c[1..]);
    }
  }

  lemma {:induction false} LessTotal(a: string, b: string)
    ensures Less(a, b) || a == b || Less(b, a)
    ensures Less(a, b) ==> a != b && !Less(b, a)
    decreases |a| + |b|
  {
    if a != "" && b != "" {
      assert a == [a[0]] + a[1..] && b == [b[0]] + b[1..];
      LessTotal(a[1..], b[1..]);
    }
  }

  /** `a` and `b` agree up to `i`, where `a` ends or has the smaller scalar value. */
  predicate PartAt(a: string, b: string, i: nat) {
    i <= |a| && i < |b| && (forall k | 0 <= k < i :: a[k] == b[k]) && (i == |a| || a[i] < b[i])
  }

  lemma {:induction false} LessMeans(a: string, b: string)
    ensures Less(a, b) <==> exists i: nat :: PartAt(a, b, i)
    decreases |a|
  {
    if a != "" && b != "" && a[0] == b[0] {
      LessMeans(a[1..], b[1..]);
      if Less(a, b) {
        var i: nat :| PartAt(a[1..], b[1..], i);
        assert forall k | 0 < k <= i :: a[k] == a[1..][k - 1] && b[k] == b[1..][k - 1];
        assert PartAt(a, b, i + 1);
      }
      if i: nat :| PartAt(a, b, i) {
        assert PartAt(a[1..], b[1..], i - 1);
      }
    } else if Less(a, b) {
      assert PartAt(a, b, 0);
    }
  }

  /** Strictly ascending, hence without duplicates. */
  predicate Ascending(s: seq<string>) {
    forall i, j :: 0 <= i < j < |s| ==> Less(s[i], s[j])
  }

  /** A set of strings has only one ascending listing, so a sorted result is fully determined by its content. */
  lemma {:induction false} AscendingUnique(a: seq<string>, b: seq<string>)
    requires Ascending(a) && Ascending(b)
    requires forall x :: x in a <==> x in b
    ensures a == b
  {
    assert a != [] ==> a[0] in b;
    assert b != [] ==> b[0] in a;
    if a != [] {
      LessTotal(a[0], b[0]);
      assert a == [a[0]] + a[1..] && b == [b[0]] + b[1..];
      forall x | x in a[1..] || x in b[1..]
        ensures x in a[1..] && x in b[1..]
      {
        assert x in a && x in b;
        LessTotal(a[0], x);
      }
      AscendingUnique(a[1..], b[1..]);
    }
  }

  lemma {:induction false} AscendingLength(a: seq<string>)
    requires Ascending(a)
    ensures |(set x | x in a)| == |a|
  {
    if a != [] {
      var rest := a[1..];
      AscendingLength(rest);
      if a[0] in rest { LessTotal(a[0], a[0]); }
      assert a == [a[0]] + rest;
      assert (set x | x in a) == {a[0]} + (set x | x in rest);
    }
  }
}
