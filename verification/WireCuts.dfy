/** What a peer reads when some writes stop part-way: the exact outcome for every sequence of writes. */
module WireCuts {
  import opened Wrappers
  import opened Strings
  import opened JsonText
  import opened JsonLaws
  import opened Utf8
  import opened Wire
  import opened Sequences

  /** One line handed to the socket: how many of its bytes went out, the line feed being the last, and whether the
      sender was told that it succeeded. */
  datatype Posting = Posting(packet: Packet, out: nat, ok: bool)

  predicate Whole(a: Posting) {
    a.out > |LineBytes(a.packet)|
  }

  predicate Partly(a: Posting) {
    0 < a.out <= |LineBytes(a.packet)|
  }

  function Piece(a: Posting): seq<byte> {
    if Whole(a) then LineBytes(a.packet) + [LF_BYTE] else LineBytes(a.packet)[..a.out]
  }

  function Flow(ws: seq<Posting>): seq<byte> {
    if ws == [] then [] else Piece(ws[0]) + Flow(ws[1..])
  }

  /** What the peer makes of it: a packet for every whole line, unless an unfinished line stands before it. */
  function Seen(ws: seq<Posting>, spoiled: bool): seq<Option<Packet>> {
    if ws == [] then []
    else if Whole(ws[0]) then [if spoiled then None else Some(ws[0].packet)] + Seen(ws[1..], false)
    else Seen(ws[1..], spoiled || Partly(ws[0]))
  }

  // ---------------------------------------------------------------- an unfinished line runs into the next

  /** Neither the end nor a continuation of anything the reader may be in: it stops here. */
  predicate Stuck(rest: string) {
    rest == "" || rest[0] == 'r' || rest[0] == '{'
  }

  /** How everything begins that can follow an unfinished line: braces, a quote, then an `r` or another brace,
      unless it ends before that. */
  predicate Opens(c: string) {
    c == ""
    || (c[0] == '{' && (|c| == 1 || if c[1] == '"' then |c| == 2 || c[2] == 'r' || c[2] == '{' else Opens(c[1..])))
  }

  /** Inside a string, such a continuation closes it at its quote, or ends within it. */
  lemma {:induction false} OpensClosesString(c: string)
    requires Opens(c)
    ensures StopsOrFails(ParseString(c))
  {
    if |c| >= 2 {
      if c[1] == '"' {
        assert c[1..][1..] == c[2..];
        assert ParseString(c[1..]) == Ok("", c[2..]);
      } else {
        OpensClosesString(c[1..]);
      }
    } else if c != "" {
      assert ParseString(c[1..]) == Fail;
    }
  }

  lemma {:induction false} OpensHead(c: string)
    requires Opens(c)
    ensures Stuck(c) && (c == "" || c[0] == '{')
  {
  }

  predicate StopsOrFails<T>(r: Parsed<T>) {
    r.Fail? || Stuck(r.rest)
  }

  lemma {:induction false} CutEscape(x: char, k: nat, c: string)
    requires 0 < k < |EscapeChar(x)| && (c == "" || c[0] == '{')
    ensures ParseString(EscapeChar(x)[..k] + c).Fail?
  {
    var e := EscapeChar(x);
    var s := e[..k] + c;
    assert s[0] == '\\';
    var t := s[1..];
    assert if c == "" then |t| == k - 1 else t[k - 1] == '{';
    if k >= 2 {
      assert t[0] == 'u';
      assert c != "" ==> t[1..][k - 2] == '{';
    }
  }

  lemma {:induction false} CutString(s: string, k: nat, c: string)
    requires k <= |Escape(s)| && Opens(c)
    ensures StopsOrFails(ParseString(Escape(s)[..k] + c))
  {
    hide EscapeChar, ParseString, Opens;
    OpensHead(c);
    var t := Escape(s)[..k] + c;
    if k == 0 {
      assert t == c;
      OpensClosesString(c);
    } else {
      var e, more := EscapeChar(s[0]), Escape(s[1..]);
      if k < |e| {
        assert t == e[..k] + c;
        CutEscape(s[0], k, c);
      } else {
        CutString(s[1..], k - |e|, c);
        var u := more[..k - |e|] + c;
        assert t == e + u;
        EscapeThenString(s[0], u);
      }
    }
  }

  lemma {:induction false} EscapeThenString(x: char, u: string)
    requires StopsOrFails(ParseString(u))
    ensures StopsOrFails(ParseString(EscapeChar(x) + u))
  {
    hide EscapeChar, ParseEscape;
    var e := EscapeChar(x);
    EscapeCharShape(x);
    if e[0] == '\\' {
      EscapeCharRoundTrip(x, u);
      assert (e + u)[1..] == e[1..] + u;
    } else {
      assert (e + u)[1..] == u;
    }
  }

  /** Where a continuation itself would be read as a value, the reader stops behind it. */
  ghost predicate NoValue(c: string) {
    forall depth: nat :: StopsOrFails(ParseValue(c, depth))
  }

  lemma {:induction false} StringValue(s: string, depth: nat)
    requires s != "" && s[0] == '"' && StopsOrFails(ParseString(s[1..]))
    ensures StopsOrFails(ParseValue(s, depth))
  {
    assert SkipSpace(s) == s;
    hide ParseString;
  }

  lemma {:induction false} ColonValue(key: string, tail: string, depth: nat)
    requires StopsOrFails(ParseValue(tail, depth))
    ensures StopsOrFails(ParseEntry(PrintStr(key) + ":" + tail, depth))
  {
    hide ParseValue, ParseString;
    var s := PrintStr(key) + ":" + tail;
    assert s[1..] == Escape(key) + "\"" + (":" + tail);
    StringRoundTrip(key, ":" + tail);
    assert (":" + tail)[1..] == tail;
    hide Escape;
  }

  lemma {:induction false} NoColon(s: string, depth: nat)
    requires s == "" || s[0] == '{' || (s[0] == '"' && StopsOrFails(ParseString(s[1..])))
    ensures ParseEntry(s, depth).Fail?
  {
    hide ParseString, ParseValue;
    assert SkipSpace(s) == s;
    assert s != "" && s[0] == '"' ==>
        var r := ParseString(s[1..]); r.Ok? && Stuck(r.rest) ==> SkipSpace(r.rest) == r.rest;
  }

  /** A quoted string, cut anywhere behind its first quote or not at all. */
  lemma {:induction false} CutQuoted(s: string, k: nat, c: string)
    requires 0 < k <= |PrintStr(s)| && Opens(c)
    ensures var t := PrintStr(s)[..k] + c; t[0] == '"' && StopsOrFails(ParseString(t[1..]))
  {
    hide ParseString, Opens, Escape;
    OpensHead(c);
    var p, inner := PrintStr(s), Escape(s) + "\"";
    var t := p[..k] + c;
    assert p == "\"" + inner && p[1..] == inner;
    assert p[..k][1..] == inner[..k - 1];
    assert t[1..] == inner[..k - 1] + c;
    if k < |p| {
      assert inner[..k - 1] == Escape(s)[..k - 1];
      CutString(s, k - 1, c);
    } else {
      assert inner[..k - 1] == inner;
      StringRoundTrip(s, c);
    }
  }

  lemma {:induction false} CutKey(key: string, k: nat, c: string, depth: nat)
    requires k <= |PrintStr(key)| && Opens(c)
    ensures ParseEntry(PrintStr(key)[..k] + c, depth).Fail?
  {
    hide ParseString, ParseEntry, Opens, PrintStr;
    var s := PrintStr(key)[..k] + c;
    if k == 0 {
      OpensHead(c);
      assert s == c;
    } else {
      CutQuoted(key, k, c);
    }
    NoColon(s, depth);
  }

  lemma {:induction false} CutEntry(key: string, v: string, k: nat, c: string, depth: nat)
    requires k <= |PrintEntry(Entry(key, JStr(v)))| && Opens(c) && NoValue(c)
    ensures StopsOrFails(ParseEntry(PrintEntry(Entry(key, JStr(v)))[..k] + c, depth))
  {
    hide ParseEntry, ParseValue, ParseString, PrintStr, Opens;
    var p, q := PrintStr(key), PrintStr(v);
    var s := PrintEntry(Entry(key, JStr(v)))[..k] + c;
    if k <= |p| {
      assert s == p[..k] + c;
      CutKey(key, k, c, depth);
    } else {
      var j := k - |p| - 1;
      assert s == p + ":" + (q[..j] + c);
      if j == 0 {
        assert q[..j] + c == c;
      } else {
        CutQuoted(v, j, c);
        StringValue(q[..j] + c, depth);
      }
      ColonValue(key, q[..j] + c, depth);
    }
  }

  lemma {:induction false} CutEntries(es: seq<Entry>, k: nat, c: string, depth: nat)
    requires es != [] && forall e | e in es :: e.value.JStr?
    requires k < |PrintEntries(es)| && Opens(c) && NoValue(c)
    ensures ParseEntries(PrintEntries(es)[..k] + c, depth).Fail?
    decreases |es|
  {
    hide ParseEntry, PrintEntry, Opens, NoValue;
    var e, p := es[0], PrintEntry(es[0]);
    var s := PrintEntries(es)[..k] + c;
    if k <= |p| {
      assert s == p[..k] + c;
      CutEntry(e.key, e.value.s, k, c, depth);
    } else {
      var rest := es[1..];
      var tail := PrintEntries(rest)[..k - |p| - 1] + c;
      assert s == p + ("," + tail);
      EntryRoundTrip(e, "," + tail, depth);
      assert ("," + tail)[1..] == tail;
      CutEntries(rest, k - |p| - 1, c, depth);
    }
  }

  lemma {:induction false} ObjectFails(t: string, depth: nat)
    requires (t == "" || t[0] == '"' || t[0] == '{') && (depth > 0 ==> ParseEntries(t, depth - 1).Fail?)
    ensures ParseValue("{" + t, depth).Fail?
  {
    hide ParseEntries;
    var s := "{" + t;
    assert s[1..] == t && SkipSpace(s) == s && SkipSpace(t) == t;
    if depth > 0 {
      assert ParseObject(s[1..], depth - 1) == Fail;
    }
    assert ParseToken(s, depth) == Fail;
  }

  lemma {:induction false} CutLine(p: Packet, k: nat, c: string, depth: nat)
    requires 0 < k < |BuildWireLine(p)| && Opens(c) && NoValue(c)
    ensures ParseValue(BuildWireLine(p)[..k] + c, depth).Fail?
  {
    hide ParseEntries, ParseValue, NoValue, PrintEntries, Opens;
    var es := WireFields(p);
    var t := PrintEntries(es)[..k - 1] + c;
    assert BuildWireLine(p)[..k] + c == "{" + t;
    PrintStartsWithQuote(es);
    OpensHead(c);
    if depth > 0 { CutEntries(es, k - 1, c, depth - 1); }
    ObjectFails(t, depth);
  }

  lemma {:induction false} PrintStartsWithQuote(es: seq<Entry>)
    requires es != []
    ensures PrintEntries(es)[0] == '"'
  {
  }

  lemma {:induction false} RouteStarts()
    ensures Escape("route") != "" && Escape("route")[0] == 'r'
  {
  }

  lemma {:induction false} LineOpens(p: Packet)
    ensures |BuildWireLine(p)| >= 3 && BuildWireLine(p)[..3] == "{\"r"
  {
    hide Escape;
    var es := WireFields(p);
    assert PrintStr("route") == "\"" + Escape("route") + "\"";
    RouteStarts();
    assert PrintEntries(es) == PrintEntry(es[0]) + ("," + PrintEntries(es[1..]));
  }

  lemma {:induction false} PartOpens(line: string, k: nat, c: string)
    requires |line| >= 3 && line[..3] == "{\"r" && 0 < k <= |line| && Opens(c)
    ensures Opens(line[..k] + c)
  {
    OpensHead(c);
    var s := line[..k] + c;
    assert line[0] == line[..3][0] && line[1] == line[..3][1] && line[2] == line[..3][2];
    if k == 1 {
      assert s[1..] == c;
    } else {
      assert s[1] == '"';
    }
  }

  /** A line cut between two characters. */
  datatype Stub = Stub(packet: Packet, k: nat)

  predicate IsStub(a: Stub) {
    0 < a.k <= |BuildWireLine(a.packet)|
  }

  /** Unfinished lines one after the other, as text. */
  function Stubs(cuts: seq<Stub>): string
    requires forall a | a in cuts :: IsStub(a)
  {
    if cuts == [] then ""
    else
      assert IsStub(cuts[0]);
      BuildWireLine(cuts[0].packet)[..cuts[0].k] + Stubs(cuts[1..])
  }

  lemma {:induction false} StubsOpen(parts: seq<Stub>)
    requires forall a | a in parts :: IsStub(a)
    ensures Opens(Stubs(parts))
  {
    hide BuildWireLine, Opens;
    if parts == [] {
      NothingOpens();
    } else {
      var a := parts[0];
      assert a in parts;
      StubsOpen(parts[1..]);
      LineOpens(a.packet);
      PartOpens(BuildWireLine(a.packet), a.k, Stubs(parts[1..]));
    }
  }

  lemma {:induction false} NothingOpens()
    ensures Opens("") && forall depth: nat :: ParseValue("", depth).Fail?
  {
  }

  /** A single line, of which only the line feed may be missing. */
  predicate OneLine(parts: seq<Stub>) {
    |parts| == 1 && parts[0].k == |BuildWireLine(parts[0].packet)|
  }

  /** Lines cut anywhere, one after the other: where a value ends the reader is stuck, and it reaches the end only
      on a single whole line. */
  lemma {:induction false} StubsValue(parts: seq<Stub>, depth: nat)
    requires forall a | a in parts :: IsStub(a)
    ensures var r := ParseValue(Stubs(parts), depth); StopsOrFails(r) && (r.Ok? && r.rest == "" ==> OneLine(parts))
    decreases |parts|
  {
    hide ParseValue, BuildWireLine, Opens;
    if parts == [] {
      NothingOpens();
    } else {
      var a := parts[0];
      var line, c := BuildWireLine(a.packet), Stubs(parts[1..]);
      assert a in parts;
      StubsOpen(parts[1..]);
      OpensHead(c);
      if a.k == |line| {
        assert line[..a.k] == line;
        LineEnds(a.packet, c, depth);
        if parts[1..] != [] { StubsAreSomething(parts[1..]); }
      } else {
        forall d: nat ensures StopsOrFails(ParseValue(c, d)) { StubsValue(parts[1..], d); }
        CutLine(a.packet, a.k, c, depth);
      }
    }
  }

  lemma {:induction false} StubsAreSomething(parts: seq<Stub>)
    requires parts != [] && forall a | a in parts :: IsStub(a)
    ensures Stubs(parts) != ""
  {
    hide BuildWireLine;
    assert IsStub(parts[0]);
  }

  lemma {:induction false} LineEnds(p: Packet, rest: string, depth: nat)
    requires Stuck(rest)
    ensures var r := ParseValue(BuildWireLine(p) + rest, depth); r.Fail? || r.rest == rest
  {
    hide ParseValue, Print;
    ValueRoundTrip(JObj(WireFields(p)), rest, depth);
  }

  lemma {:induction false} StubsParse(parts: seq<Stub>)
    requires parts != [] && forall a | a in parts :: IsStub(a)
    ensures ParseWireLine(Stubs(parts)) == if OneLine(parts) then Some(parts[0].packet) else None
  {
    hide ParseValue, BuildWireLine;
    StubsValue(parts, MAX_DEPTH);
    if OneLine(parts) {
      var line := BuildWireLine(parts[0].packet);
      WireRoundTrip(parts[0].packet);
      assert parts[1..] == [] && line[..|line|] == line && line + "" == line;
    } else {
      StuckIsNoSpace(Stubs(parts));
    }
  }

  lemma {:induction false} StuckIsNoSpace(s: string)
    requires var r := ParseValue(s, MAX_DEPTH); StopsOrFails(r) && (r.Ok? ==> r.rest != "")
    ensures Parse(s) == None
  {
    hide ParseValue;
  }

  /** Trimming the end takes white space off the last piece at most. */
  lemma {:induction false} TrimmedStubs(parts: seq<Stub>) returns (trimmed: seq<Stub>)
    requires parts != [] && forall a | a in parts :: IsStub(a)
    ensures |trimmed| == |parts| && forall a | a in trimmed :: IsStub(a)
    ensures TrimEnd(Stubs(parts)) == Stubs(trimmed)
    ensures OneLine(trimmed) <==> OneLine(parts)
    ensures OneLine(parts) ==> trimmed[0].packet == parts[0].packet
  {
    hide BuildWireLine;
    var n := |parts| - 1;
    var init, a := parts[..n], parts[n];
    assert parts == init + [a] && a in parts && forall x | x in init :: x in parts;
    var line := BuildWireLine(a.packet);
    var k := TrimmedPiece(Stubs(init), a);
    trimmed := init + [Stub(a.packet, k)];
    StubsAppend(init, a);
    StubsAppend(init, Stub(a.packet, k));
  }

  lemma {:induction false} StubsAppend(init: seq<Stub>, a: Stub)
    requires IsStub(a) && forall x | x in init :: IsStub(x)
    ensures forall x | x in init + [a] :: IsStub(x)
    ensures Stubs(init + [a]) == Stubs(init) + BuildWireLine(a.packet)[..a.k]
  {
    hide BuildWireLine;
    var piece := BuildWireLine(a.packet)[..a.k];
    if init == [] {
      assert [a][1..] == [] && piece + "" == piece && "" + piece == piece && init + [a] == [a];
    } else {
      assert (init + [a])[1..] == init[1..] + [a];
      StubsAppend(init[1..], a);
    }
  }

  lemma {:induction false} StaysInside(s: string, i: nat)
    requires i < |s| && !IsWhitespace(s[i])
    ensures |TrimEnd(s)| > i
  {
    if IsWhitespace(s[|s| - 1]) { StaysInside(s[..|s| - 1], i); }
  }

  lemma {:induction false} TrimmedPiece(front: string, a: Stub) returns (k: nat)
    requires IsStub(a)
    ensures 0 < k <= a.k && (k == |BuildWireLine(a.packet)| <==> a.k == |BuildWireLine(a.packet)|)
    ensures TrimEnd(front + BuildWireLine(a.packet)[..a.k]) == front + BuildWireLine(a.packet)[..k]
  {
    hide BuildWireLine;
    var line := BuildWireLine(a.packet);
    var s := front + line[..a.k];
    var u := TrimEnd(s);
    TrimEndFacts(s);
    LineOpens(a.packet);
    LineLast(a.packet);
    assert line[0] == line[..3][0] == '{' && s[|front|] == line[0];
    StaysInside(s, |front|);
    k := |u| - |front|;
    assert u == s[..|u|] == front + line[..k];
    if a.k == |line| { assert s[|s| - 1] == line[|line| - 1] == '}'; }
  }

  // ---------------------------------------------------------------- cuts inside a character

  /** Where the first `n` bytes of a text end: behind `i` characters and `k` more bytes of the next. */
  lemma {:induction false} BytesPrefix(s: string, n: nat) returns (i: nat, k: nat)
    requires n <= |Bytes(s)|
    ensures i <= |s| && if i == |s| then k == 0 else k < |CharBytes(s[i])|
    ensures Bytes(s)[..n] == Bytes(s[..i]) + if k == 0 then [] else CharBytes(s[i])[..k]
    ensures n > 0 && k == 0 ==> i > 0
  {
    hide CharBytes;
    if n == 0 || s == "" {
      i, k := 0, 0;
      if s != "" { CharShape(s[0]); }
      assert s[..0] == "" && Bytes(s)[..0] == [];
    } else {
      var e := CharBytes(s[0]);
      if n < |e| {
        i, k := 0, n;
        assert Bytes(s)[..n] == e[..n] && s[..0] == "";
      } else {
        i, k := BytesPrefix(s[1..], n - |e|);
        i := i + 1;
        assert s[..i][1..] == s[1..][..i - 1] && s[..i][0] == s[0];
        assert Bytes(s)[..n] == e + Bytes(s[1..])[..n - |e|];
      }
    }
  }

  /** What follows a text inside a text is a text. */
  lemma {:induction false} DropPrefix(u: string, tail: seq<byte>, t: string) returns (rest: string)
    requires Bytes(t) == Bytes(u) + tail
    ensures Bytes(rest) == tail && t == u + rest
    decreases |u|
  {
    hide CharBytes;
    if u == "" {
      rest := t;
      assert [] + tail == tail && u + rest == rest;
    } else {
      CharShape(u[0]);
      assert Bytes(t) == CharBytes(u[0]) + (Bytes(u[1..]) + tail);
      FirstChar(t[0], u[0], Bytes(t[1..]), Bytes(u[1..]) + tail);
      rest := DropPrefix(u[1..], tail, t[1..]);
      assert t == [t[0]] + t[1..] && u == [u[0]] + u[1..];
    }
  }

  ghost predicate IsText(b: seq<byte>) {
    exists t :: Bytes(t) == b
  }

  lemma {:induction false} LineStarts(q: Packet)
    ensures |LineBytes(q)| > 0 && LineBytes(q)[0] == 0x7B
  {
    hide Print;
    LineOpens(q);
    assert BuildWireLine(q)[0] == BuildWireLine(q)[..3][0] == '{';
    hide BuildWireLine;
  }

  /** The cut lies where the bytes end, and takes the whole line only if they do. */
  predicate SameEnd(a: Posting, cut: Stub) {
    cut.packet == a.packet && (cut.k == |BuildWireLine(a.packet)| <==> a.out == |LineBytes(a.packet)|)
  }

  /** One more unfinished line in front of a tail. */
  lemma {:induction false} CutInFront(a: Posting, tail: seq<byte>, rest: seq<Stub>) returns (cut: Stub)
    requires Partly(a) && (tail == [] || tail[0] < 0x80) && forall x | x in rest :: IsStub(x)
    requires IsText(tail) ==> tail == Bytes(Stubs(rest))
    ensures IsStub(cut) && forall x | x in [cut] + rest :: IsStub(x)
    ensures IsText(Piece(a) + tail) ==> Piece(a) + tail == Bytes(Stubs([cut] + rest)) && SameEnd(a, cut)
  {
    hide BuildWireLine, CharBytes, Partly, Stubs, IsText;
    var line := BuildWireLine(a.packet);
    PartPiece(a);
    var i, k := BytesPrefix(line, a.out);
    if k == 0 {
      cut := Stub(a.packet, i);
      OneCut(a.packet, i, tail, rest);
      assert Bytes(line[..i]) + [] == Bytes(line[..i]);
      WholePrefix(line, i);
    } else {
      cut := Stub(a.packet, |line|);
      SplitCharIsNoText(line, i, k, tail);
      Associative(Bytes(line[..i]), CharBytes(line[i])[..k], tail);
    }
  }

  lemma {:induction false} WholePrefix(s: string, i: nat)
    requires i <= |s|
    ensures |Bytes(s[..i])| == |Bytes(s)| <==> i == |s|
  {
    SizeSplit(s, i);
    SizeAtLeast(s[i..]);
    assert s[..|s|] == s;
  }

  /** Bytes of unfinished lines: if they are text at all, every cut is between two characters. */
  lemma {:induction false} CutsBetween(parts: seq<Posting>) returns (cuts: seq<Stub>)
    requires forall a | a in parts :: Partly(a)
    ensures Flow(parts) == [] || Flow(parts)[0] == 0x7B
    ensures |cuts| == |parts| && forall a | a in cuts :: IsStub(a)
    ensures IsText(Flow(parts)) ==> Flow(parts) == Bytes(Stubs(cuts))
    ensures IsText(Flow(parts)) && parts != [] ==> SameEnd(parts[0], cuts[0])
  {
    hide BuildWireLine, CharBytes, Partly, LineBytes, Piece, IsText, IsStub, SameEnd;
    if parts == [] {
      cuts := [];
      NoCuts();
    } else {
      var a := parts[0];
      assert a in parts;
      var rest := CutsBetween(parts[1..]);
      var cut := CutInFront(a, Flow(parts[1..]), rest);
      cuts := [cut] + rest;
      PartPiece(a);
      LineStarts(a.packet);
    }
  }

  lemma {:induction false} NoCuts()
    ensures Flow([]) == Bytes(Stubs([])) == []
  {
  }

  lemma {:induction false} PartPiece(a: Posting)
    requires Partly(a)
    ensures 0 < a.out <= |LineBytes(a.packet)|
    ensures Piece(a) == LineBytes(a.packet)[..a.out] && |LineBytes(a.packet)| > 0 && |BuildWireLine(a.packet)| > 0
  {
    hide BuildWireLine;
  }

  lemma {:induction false} OneCut(p: Packet, i: nat, tail: seq<byte>, rest: seq<Stub>)
    requires 0 < i <= |BuildWireLine(p)| && forall a | a in rest :: IsStub(a)
    requires IsText(tail) ==> tail == Bytes(Stubs(rest))
    ensures var cuts := [Stub(p, i)] + rest; forall a | a in cuts :: IsStub(a)
    ensures var cuts := [Stub(p, i)] + rest;
            var b := Bytes(BuildWireLine(p)[..i]) + tail;
            IsText(b) ==> b == Bytes(Stubs(cuts))
  {
    hide BuildWireLine, Stubs, Bytes;
    var cuts, u := [Stub(p, i)] + rest, BuildWireLine(p)[..i];
    ConsCut(Stub(p, i), rest);
    var b := Bytes(u) + tail;
    if IsText(b) {
      var t :| Bytes(t) == b;
      var after := DropPrefix(u, tail, t);
      assert IsText(tail);
      BytesConcat(u, Stubs(rest));
    }
  }

  lemma {:induction false} ConsCut(cut: Stub, rest: seq<Stub>)
    requires IsStub(cut) && forall a | a in rest :: IsStub(a)
    ensures forall a | a in [cut] + rest :: IsStub(a)
    ensures Stubs([cut] + rest) == BuildWireLine(cut.packet)[..cut.k] + Stubs(rest)
  {
    hide BuildWireLine;
    assert ([cut] + rest)[1..] == rest;
  }

  lemma {:induction false} SplitCharIsNoText(line: string, i: nat, k: nat, tail: seq<byte>)
    requires i < |line| && 0 < k < |CharBytes(line[i])| && (tail == [] || tail[0] < 0x80)
    ensures !IsText(Bytes(line[..i]) + (CharBytes(line[i])[..k] + tail))
  {
    forall t ensures Bytes(t) != Bytes(line[..i]) + (CharBytes(line[i])[..k] + tail) {
      CutCharIsNoText(line[..i], line[i], k, tail, t);
    }
  }

  /** A single line that lacks its line feed and nothing else. */
  predicate Unended(parts: seq<Posting>) {
    |parts| == 1 && parts[0].out == |LineBytes(parts[0].packet)|
  }

  /** Unfinished lines, cut anywhere, and one after the other: no text or no packet, unless there is just one and it
      lacks its line feed only. */
  lemma {:induction false} Garbled(parts: seq<Posting>)
    requires parts != [] && forall a | a in parts :: Partly(a)
    ensures ParseBytes(Flow(parts)) == if Unended(parts) then Some(parts[0].packet) else None
  {
    hide BuildWireLine, ParseWireLine, TrimEnd, Stubs, LineBytes;
    var b := Flow(parts);
    if Unended(parts) {
      var a := parts[0];
      assert a in parts && parts[1..] == [];
      PartPiece(a);
      assert LineBytes(a.packet)[..a.out] == LineBytes(a.packet) && LineBytes(a.packet) + [] == LineBytes(a.packet);
      LineIsRead(a.packet);
    } else {
      var cuts := CutsBetween(parts);
      if IsText(b) {
        EncodedIsRead(Stubs(cuts));
        var trimmed := TrimmedStubs(cuts);
        StubsParse(trimmed);
      }
    }
  }

  // ---------------------------------------------------------------- what the peer reads

  lemma {:induction false} SplitNothing(piece: seq<byte>, rest: seq<byte>, acc: seq<byte>)
    requires LF_BYTE !in piece
    ensures SplitLines(piece + rest, acc) == SplitLines(rest, acc + piece)
    decreases |piece|
  {
    if piece == [] {
      assert piece + rest == rest && acc + piece == acc;
    } else {
      var s := piece + rest;
      assert s[1..] == piece[1..] + rest;
      SplitNothing(piece[1..], rest, acc + [piece[0]]);
      assert acc + [piece[0]] + piece[1..] == acc + piece;
    }
  }

  lemma {:induction false} FlowAppend(parts: seq<Posting>, a: Posting)
    ensures Flow(parts + [a]) == Flow(parts) + Piece(a)
  {
    hide Piece;
    if parts == [] {
      assert [a][1..] == [] && Piece(a) + [] == Piece(a) == [] + Piece(a);
    } else {
      assert (parts + [a])[1..] == parts[1..] + [a];
      FlowAppend(parts[1..], a);
    }
  }

  lemma {:induction false} PeerSeesBehind(parts: seq<Posting>, ws: seq<Posting>)
    requires forall a | a in parts :: Partly(a)
    ensures ParsePieces(SplitLines(Flow(ws), Flow(parts))) == Seen(ws, parts != [])
    decreases |ws|
  {
    hide LineBytes, ParseBytes;
    if ws != [] {
      var a, rest := ws[0], ws[1..];
      var line, acc := LineBytes(a.packet), Flow(parts);
      LineIsRead(a.packet);
      if Whole(a) {
        PeerSeesBehind([], rest);
        SplitOneLine(line, Flow(rest), acc);
        var ls := SplitLines(Flow(rest));
        assert ([acc + line] + ls)[1..] == ls;
        WholeLine(parts, a.packet);
        assert ParsePieces([acc + line] + ls) == [ParseBytes(acc + line)] + ParsePieces(ls);
      } else {
        SplitNothing(Piece(a), Flow(rest), acc);
        if Partly(a) {
          FlowAppend(parts, a);
          PeerSeesBehind(parts + [a], rest);
        } else {
          assert acc + Piece(a) == acc;
          PeerSeesBehind(parts, rest);
        }
      }
    }
  }

  lemma {:induction false} WholeLine(parts: seq<Posting>, q: Packet)
    requires forall a | a in parts :: Partly(a)
    ensures ParseBytes(Flow(parts) + LineBytes(q)) == if parts != [] then None else Some(q)
  {
    hide LineBytes, ParseBytes;
    var last := Posting(q, |LineBytes(q)|, false);
    LineStarts(q);
    FlowAppend(parts, last);
    assert LineBytes(q)[..last.out] == LineBytes(q);
    Garbled(parts + [last]);
  }

  /** Main result: whatever went out of each line, down to the byte, the peer reads the packets of the whole lines
      in order, except that a whole line behind an unfinished one is unreadable. */
  lemma {:induction false} PeerSees(ws: seq<Posting>)
    ensures ParsePieces(SplitLines(Flow(ws))) == Seen(ws, false)
  {
    PeerSeesBehind([], ws);
  }

  // ---------------------------------------------------------------- when the peer reads what was accepted

  function Accepted(ws: seq<Posting>): seq<Packet> {
    if ws == [] then [] else (if ws[0].ok then [ws[0].packet] else []) + Accepted(ws[1..])
  }

  /** No failed write put out its whole line, and none that put out a part of it stands before an accepted one. */
  predicate Faithful(ws: seq<Posting>, spoiled: bool) {
    ws == []
    || if ws[0].ok then !spoiled && Faithful(ws[1..], false)
       else !Whole(ws[0]) && Faithful(ws[1..], spoiled || Partly(ws[0]))
  }

  lemma {:induction false} AcceptedAreSeen(ws: seq<Posting>, spoiled: bool)
    requires forall a | a in ws && a.ok :: Whole(a)
    ensures |Accepted(ws)| <= |Seen(ws, spoiled)|
  {
    if ws != [] {
      assert ws[0] in ws;
      AcceptedAreSeen(ws[1..], if Whole(ws[0]) then false else spoiled || Partly(ws[0]));
    }
  }

  lemma {:induction false} DeliveredCons(p: Packet, ps: seq<Packet>)
    ensures Delivered([p] + ps) == [Some(p)] + Delivered(ps)
  {
  }

  lemma {:induction false} DeliveredLength(ps: seq<Packet>)
    ensures |Delivered(ps)| == |ps|
  {
  }

  /** The peer reads exactly the accepted packets, in order, exactly when the failed writes were
      faithful in that sense. */
  lemma {:induction false} ReadsAcceptedIffFaithful(ws: seq<Posting>, spoiled: bool)
    requires forall a | a in ws && a.ok :: Whole(a)
    ensures Seen(ws, spoiled) == Delivered(Accepted(ws)) <==> Faithful(ws, spoiled)
  {
    if ws != [] {
      hide Whole, Partly, Delivered;
      assert ws[0] in ws;
      var a, rest := ws[0], ws[1..];
      if a.ok {
        ReadsAcceptedIffFaithful(rest, false);
        DeliveredCons(a.packet, Accepted(rest));
        SameCons(if spoiled then None else Some(a.packet), Some(a.packet),
                 Seen(rest, false), Delivered(Accepted(rest)));
      } else {
        ReadsAcceptedIffFaithful(rest, spoiled || Partly(a));
        AcceptedAreSeen(rest, false);
        assert Accepted(ws) == Accepted(rest);
        DeliveredLength(Accepted(rest));
      }
    }
  }

  // ---------------------------------------------------------------- a peer that also takes an unended last line

  /** What stands behind the last line feed. */
  function LineTail(s: seq<byte>, acc: seq<byte> := []): seq<byte>
    decreases |s|
  {
    if s == [] then acc else if s[0] == LF_BYTE then LineTail(s[1..]) else LineTail(s[1..], acc + [s[0]])
  }

  /** All lines, and what stands behind the last line feed when the stream ends there. */
  ghost function ParseToEnd(s: seq<byte>): seq<Option<Packet>> {
    ParsePieces(SplitLines(s)) + if LineTail(s) == [] then [] else [ParseBytes(LineTail(s))]
  }

  /** The unfinished lines behind the last whole one. */
  function Tail(ws: seq<Posting>, parts: seq<Posting>): seq<Posting> {
    if ws == [] then parts
    else if Whole(ws[0]) then Tail(ws[1..], [])
    else Tail(ws[1..], if Partly(ws[0]) then parts + [ws[0]] else parts)
  }

  function SeenTail(parts: seq<Posting>): seq<Option<Packet>> {
    if parts == [] then [] else [if Unended(parts) then Some(parts[0].packet) else None]
  }

  lemma {:induction false} TailSkipsLine(line: seq<byte>, rest: seq<byte>, acc: seq<byte>)
    requires LF_BYTE !in line
    ensures LineTail(line + [LF_BYTE] + rest, acc) == LineTail(rest)
    decreases |line|
  {
    var s := line + [LF_BYTE] + rest;
    if line == [] {
      assert s[1..] == rest;
    } else {
      assert s[1..] == line[1..] + [LF_BYTE] + rest;
      TailSkipsLine(line[1..], rest, acc + [line[0]]);
    }
  }

  lemma {:induction false} TailTakes(piece: seq<byte>, rest: seq<byte>, acc: seq<byte>)
    requires LF_BYTE !in piece
    ensures LineTail(piece + rest, acc) == LineTail(rest, acc + piece)
    decreases |piece|
  {
    if piece == [] {
      assert piece + rest == rest && acc + piece == acc;
    } else {
      assert (piece + rest)[1..] == piece[1..] + rest;
      TailTakes(piece[1..], rest, acc + [piece[0]]);
      assert acc + [piece[0]] + piece[1..] == acc + piece;
    }
  }

  lemma {:induction false} TailIsFlow(parts: seq<Posting>, ws: seq<Posting>)
    requires forall a | a in parts :: Partly(a)
    ensures LineTail(Flow(ws), Flow(parts)) == Flow(Tail(ws, parts))
    ensures forall a | a in Tail(ws, parts) :: Partly(a)
    decreases |ws|
  {
    hide LineBytes;
    if ws != [] {
      var a, rest := ws[0], ws[1..];
      LineIsRead(a.packet);
      if Whole(a) {
        TailSkipsLine(LineBytes(a.packet), Flow(rest), Flow(parts));
        TailIsFlow([], rest);
      } else {
        TailTakes(Piece(a), Flow(rest), Flow(parts));
        if Partly(a) {
          FlowAppend(parts, a);
          TailIsFlow(parts + [a], rest);
        } else {
          assert Flow(parts) + Piece(a) == Flow(parts);
          TailIsFlow(parts, rest);
        }
      }
    }
  }

  lemma {:induction false} SomethingFlows(parts: seq<Posting>)
    requires parts != [] && Partly(parts[0])
    ensures Flow(parts) != []
  {
    hide LineBytes;
    PartPiece(parts[0]);
  }

  /** What such a peer reads: the whole lines as before, and a last packet if just its line feed is missing. */
  lemma {:induction false} PeerSeesToEnd(ws: seq<Posting>)
    ensures ParseToEnd(Flow(ws)) == Seen(ws, false) + SeenTail(Tail(ws, []))
  {
    hide ParseBytes, Unended, Partly, Whole;
    PeerSees(ws);
    TailIsFlow([], ws);
    var parts := Tail(ws, []);
    if parts != [] {
      assert parts[0] in parts;
      SomethingFlows(parts);
      Garbled(parts);
    }
  }

  /** No failed write put anything out. */
  predicate Clean(ws: seq<Posting>) {
    forall a | a in ws && !a.ok :: a.out == 0
  }

  lemma {:induction false} FaithfulAndEnded(ws: seq<Posting>, parts: seq<Posting>)
    requires forall a | a in ws && a.ok :: Whole(a)
    ensures Faithful(ws, parts != []) && Tail(ws, parts) == [] <==> parts == [] && Clean(ws)
    decreases |ws|
  {
    hide LineBytes;
    if ws != [] {
      var a, rest := ws[0], ws[1..];
      assert ws == [a] + rest && a in ws;
      FaithfulAndEnded(rest, if Whole(a) then [] else if Partly(a) then parts + [a] else parts);
    }
  }

  /** Such a peer reads exactly the accepted packets, in order, if and only if no failed write put anything out. */
  lemma {:induction false} ReadsToEndIffClean(ws: seq<Posting>)
    requires forall a | a in ws && a.ok :: Whole(a)
    ensures ParseToEnd(Flow(ws)) == Delivered(Accepted(ws)) <==> Clean(ws)
  {
    hide Whole, Clean, Faithful, ParseToEnd, Unended, Delivered;
    PeerSeesToEnd(ws);
    FaithfulAndEnded(ws, []);
    ReadsAcceptedIffFaithful(ws, false);
    AcceptedAreSeen(ws, false);
    DeliveredLength(Accepted(ws));
    assert Seen(ws, false) + [] == Seen(ws, false);
  }
}
