/** UTF-8 (RFC 3629): what a string looks like on the wire, and which bytes are a string. */
module Utf8 {
  import opened Wrappers
  import opened Strings

  type byte = n: int | 0 <= n < 0x100

  const LF_BYTE: byte := 0x0A

  function CharBytes(c: char): seq<byte> {
    var n := c as int;
    if n < 0x80 then [n]
    else if n < 0x800 then [0xC0 + n / 0x40, 0x80 + n % 0x40]
    else if n < 0x1_0000 then [0xE0 + n / 0x1000, 0x80 + n / 0x40 % 0x40, 0x80 + n % 0x40]
    else [0xF0 + n / 0x4_0000, 0x80 + n / 0x1000 % 0x40, 0x80 + n / 0x40 % 0x40, 0x80 + n % 0x40]
  }

  function Bytes(s: string): seq<byte> {
    if s == "" then [] else CharBytes(s[0]) + Bytes(s[1..])
  }

  lemma {:induction false} BytesConcat(a: string, b: string)
    ensures Bytes(a + b) == Bytes(a) + Bytes(b)
  {
    if a == "" {
      assert a + b == b;
    } else {
      assert (a + b)[1..] == a[1..] + b;
      BytesConcat(a[1..], b);
    }
  }

  /** How many bytes a first byte announces. */
  function Announced(b: byte): nat {
    if b < 0x80 then 1 else if b < 0xE0 then 2 else if b < 0xF0 then 3 else 4
  }

  /** The first byte tells the length, and all others are continuation bytes. */
  lemma {:induction false} CharShape(c: char)
    ensures var e := CharBytes(c);
            && 1 <= |e| <= 4 && |e| == Announced(e[0]) && (e[0] < 0x80 || 0xC2 <= e[0] < 0xF5)
            && forall k | 0 < k < |e| :: 0x80 <= e[k] < 0xC0
  {
  }

  function CodeOf(e: seq<int>): int {
    if |e| == 1 then e[0]
    else if |e| == 2 then (e[0] - 0xC0) * 0x40 + (e[1] - 0x80)
    else if |e| == 3 then (e[0] - 0xE0) * 0x1000 + (e[1] - 0x80) * 0x40 + (e[2] - 0x80)
    else if |e| == 4 then (e[0] - 0xF0) * 0x4_0000 + (e[1] - 0x80) * 0x1000 + (e[2] - 0x80) * 0x40 + (e[3] - 0x80)
    else 0
  }

  lemma {:induction false} SixBits(n: nat)
    ensures n == n / 0x40 * 0x40 + n % 0x40
    ensures n / 0x40 / 0x40 == n / 0x1000 && n / 0x1000 / 0x40 == n / 0x4_0000
  {
  }

  lemma {:induction false} CodeOfChar(c: char)
    ensures CodeOf(CharBytes(c)) == c as int
  {
    var n := c as int;
    SixBits(n);
    SixBits(n / 0x40);
    SixBits(n / 0x1000);
  }

  /** Where an encoded text starts with an encoded character, that is its first character. */
  lemma {:induction false} FirstChar(c: char, d: char, x: seq<byte>, y: seq<byte>)
    requires CharBytes(c) + x == CharBytes(d) + y
    ensures c == d && x == y
  {
    hide CharBytes;
    CharShape(c);
    CharShape(d);
    var s, e, f := CharBytes(c) + x, CharBytes(c), CharBytes(d);
    assert s[0] == e[0] && (CharBytes(d) + y)[0] == f[0];
    assert e == s[..|e|] == f;
    assert x == s[|e|..] == y;
    CodeOfChar(c);
    CodeOfChar(d);
  }

  lemma {:induction false} BytesInjective(s: string, t: string)
    requires Bytes(s) == Bytes(t)
    ensures s == t
  {
    hide CharBytes;
    if s != "" { CharShape(s[0]); }
    if t != "" { CharShape(t[0]); }
    if s != "" && t != "" {
      FirstChar(s[0], t[0], Bytes(s[1..]), Bytes(t[1..]));
      BytesInjective(s[1..], t[1..]);
      assert s == [s[0]] + s[1..] && t == [t[0]] + t[1..];
    }
  }

  // ---------------------------------------------------------------- order

  /** `a` and `b` agree up to byte `i`, where `a` ends or has the smaller byte. */
  predicate BytesPartAt(a: seq<byte>, b: seq<byte>, i: nat) {
    i <= |a| && i < |b| && (forall k | 0 <= k < i :: a[k] == b[k]) && (i == |a| || a[i] < b[i])
  }

  /** The order of Rust's strings: byte by byte, an initial part first. */
  ghost predicate ByteBefore(a: seq<byte>, b: seq<byte>) {
    exists i: nat :: BytesPartAt(a, b, i)
  }

  lemma {:induction false} PartsOneWay(a: seq<byte>, b: seq<byte>, i: nat, j: nat)
    requires BytesPartAt(a, b, i)
    ensures !BytesPartAt(b, a, j)
  {
  }

  /** The first position at which they differ. */
  function Parting(e: seq<int>, f: seq<int>): nat {
    if e == [] || f == [] || e[0] != f[0] then 0 else 1 + Parting(e[1..], f[1..])
  }

  lemma {:induction false} PartingFacts(e: seq<int>, f: seq<int>)
    requires |e| == |f|
    ensures var i := Parting(e, f);
            i <= |e| && (forall k | 0 <= k < i :: e[k] == f[k]) && (i < |e| ==> e[i] != f[i])
    decreases |e|
  {
    if e != [] && e[0] == f[0] { PartingFacts(e[1..], f[1..]); }
  }

  /** Among codes of one length the smaller has the smaller byte where they part. */
  lemma {:induction false} CodesOrder(e: seq<byte>, f: seq<byte>)
    requires 1 <= |e| == |f| <= 4 && CodeOf(e) < CodeOf(f)
    requires forall k | 0 < k < |e| :: 0x80 <= e[k] < 0xC0 && 0x80 <= f[k] < 0xC0
    ensures BytesPartAt(e, f, Parting(e, f))
  {
    hide Parting;
    PartingFacts(e, f);
  }

  /** A smaller character has the smaller encoding. */
  lemma {:induction false} CharOrder(c: char, d: char)
    requires c < d
    ensures var e, f := CharBytes(c), CharBytes(d);
            var i := if |e| == |f| then Parting(e, f) else 0;
            i < |e| && BytesPartAt(e, f, i)
  {
    var e, f := CharBytes(c), CharBytes(d);
    CharShape(c);
    CharShape(d);
    CodeOfChar(c);
    CodeOfChar(d);
    assert |e| <= |f|;
    hide CharBytes, CodeOf, Parting;
    if |e| == |f| {
      PartingFacts(e, f);
      CodesOrder(e, f);
    }
  }

  /** Comparing scalar values is comparing bytes. */
  lemma {:induction false} LessIsByteOrder(a: string, b: string)
    ensures Less(a, b) <==> ByteBefore(Bytes(a), Bytes(b))
  {
    LessTotal(a, b);
    if Less(a, b) {
      LessIsByteBefore(a, b);
    } else if ByteBefore(Bytes(a), Bytes(b)) {
      var i: nat :| BytesPartAt(Bytes(a), Bytes(b), i);
      if a == b {
        PartsOneWay(Bytes(a), Bytes(b), i, i);
      } else {
        LessIsByteBefore(b, a);
        var j: nat :| BytesPartAt(Bytes(b), Bytes(a), j);
        PartsOneWay(Bytes(a), Bytes(b), i, j);
      }
    }
  }

  lemma {:induction false} LessIsByteBefore(a: string, b: string)
    requires Less(a, b)
    ensures ByteBefore(Bytes(a), Bytes(b))
    decreases |a|
  {
    hide CharBytes;
    CharShape(b[0]);
    if a == "" {
      assert BytesPartAt(Bytes(a), Bytes(b), 0);
    } else if a[0] < b[0] {
      CharOrder(a[0], b[0]);
      var e, f := CharBytes(a[0]), CharBytes(b[0]);
      assert BytesPartAt(Bytes(a), Bytes(b), if |e| == |f| then Parting(e, f) else 0);
    } else {
      LessIsByteBefore(a[1..], b[1..]);
      var x, y, e := Bytes(a[1..]), Bytes(b[1..]), CharBytes(a[0]);
      var i: nat :| BytesPartAt(x, y, i);
      assert BytesPartAt(e + x, e + y, |e| + i);
    }
  }

  /** Strictly ascending in byte order. */
  ghost predicate ByteAscending(s: seq<string>) {
    forall i, j :: 0 <= i < j < |s| ==> ByteBefore(Bytes(s[i]), Bytes(s[j]))
  }

  lemma {:induction false} AscendingInBytes(s: seq<string>)
    ensures Ascending(s) <==> ByteAscending(s)
  {
    forall i, j | 0 <= i < j < |s| ensures Less(s[i], s[j]) <==> ByteBefore(Bytes(s[i]), Bytes(s[j])) {
      LessIsByteOrder(s[i], s[j]);
    }
  }

  /** The string whose encoding these bytes are. */
  ghost function FromUtf8(b: seq<byte>): (r: Option<string>)
    ensures r.Some? ==> Bytes(r.value) == b
  {
    if exists s :: Bytes(s) == b then
      var s :| Bytes(s) == b;
      Some(s)
    else None
  }

  lemma {:induction false} EncodedIsRead(s: string)
    ensures FromUtf8(Bytes(s)) == Some(s)
  {
    BytesInjective(s, FromUtf8(Bytes(s)).value);
  }

  lemma {:induction false} NoTextMeans(b: seq<byte>)
    ensures FromUtf8(b).None? <==> forall s :: Bytes(s) != b
  {
    if s :| Bytes(s) == b { EncodedIsRead(s); }
  }

  /** Only a line feed has a line-feed byte in it. */
  lemma {:induction false} LineFeedByte(s: string)
    ensures LF_BYTE in Bytes(s) <==> LF in s
  {
    if s != "" {
      LineFeedByte(s[1..]);
      CharShape(s[0]);
      assert s == [s[0]] + s[1..];
      LineFeedChar(s[0]);
      hide CharBytes;
    }
  }

  lemma {:induction false} LineFeedChar(c: char)
    ensures LF_BYTE in CharBytes(c) <==> c == LF
  {
    if c as int < 0x80 {
      assert CharBytes(c) == [c as int];
    } else {
      CharShape(c);
      assert CharBytes(c)[0] >= 0x80;
    }
  }

  lemma {:induction false} CutStart(c: char, k: nat, tail: seq<byte>, t: string)
    requires 0 < k < |CharBytes(c)| && (tail == [] || tail[0] < 0x80)
    ensures Bytes(t) != CharBytes(c)[..k] + tail
  {
    hide CharBytes;
    var b := CharBytes(c)[..k] + tail;
    CharShape(c);
    assert b[0] == CharBytes(c)[0] && if tail == [] then |b| == k else b[k] == tail[0];
    if t != "" {
      var e := CharBytes(t[0]);
      CharShape(t[0]);
      assert Bytes(t)[0] == e[0] && |Bytes(t)| >= |e|;
      assert k < |e| ==> Bytes(t)[k] == e[k];
    }
  }

  /** A character cut short, at the end or before an ASCII byte, is no text, whatever stands around it. */
  lemma {:induction false} CutCharIsNoText(before: string, c: char, k: nat, tail: seq<byte>, t: string)
    requires 0 < k < |CharBytes(c)| && (tail == [] || tail[0] < 0x80)
    ensures Bytes(t) != Bytes(before) + (CharBytes(c)[..k] + tail)
    decreases |before|
  {
    hide CharBytes;
    var cut := CharBytes(c)[..k] + tail;
    if before == "" {
      CutStart(c, k, tail, t);
      assert [] + cut == cut;
    } else {
      var rest := Bytes(before[1..]) + cut;
      assert Bytes(before) + cut == CharBytes(before[0]) + rest;
      CharShape(before[0]);
      if t != "" && Bytes(t) == CharBytes(before[0]) + rest {
        FirstChar(before[0], t[0], rest, Bytes(t[1..]));
        CutCharIsNoText(before[1..], c, k, tail, t[1..]);
      }
    }
  }

  // ---------------------------------------------------------------- sizes

  /** The number of bytes a string takes. */
  function Size(s: string): nat {
    |Bytes(s)|
  }

  lemma {:induction false} SizeConcat(a: string, b: string)
    ensures Size(a + b) == Size(a) + Size(b)
  {
    BytesConcat(a, b);
  }

  lemma {:induction false} SizeSplit(s: string, i: nat)
    requires i <= |s|
    ensures Size(s) == Size(s[..i]) + Size(s[i..])
  {
    SizeConcat(s[..i], s[i..]);
    assert s == s[..i] + s[i..];
  }

  predicate IsAscii(s: string) {
    forall i | 0 <= i < |s| :: s[i] as int < 0x80
  }

  lemma {:induction false} AsciiSize(s: string)
    requires IsAscii(s)
    ensures Size(s) == |s|
  {
    if s != "" { AsciiSize(s[1..]); }
  }

  lemma {:induction false} SizeAtLeast(s: string)
    ensures Size(s) >= |s|
  {
    if s != "" { SizeAtLeast(s[1..]); }
  }
}
