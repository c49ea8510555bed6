/** Packets on the wire: one JSON document a line, and a receiver that opens a fresh buffer for every line. */
module Wire {
  import opened Wrappers
  import opened Strings
  import opened JsonText
  import opened JsonLaws
  import opened JsonShortest
  import opened JsonSuffix
  import opened Messages
  import opened Utf8
  import opened Sequences

  datatype Packet = Packet(route: string, payload: string)

  function WireFields(p: Packet): seq<Entry> {
    [Entry("route", JStr(p.route)), Entry("payload", JStr(p.payload))]
  }

  function BuildWireLine(p: Packet): string {
    Print(JObj(WireFields(p)))
  }

  /** An object with the two members, or an array of the two strings. */
  function ParseWireLine(line: string): Option<Packet> {
    var j := Parse(line);
    var fields := if j.None? then None else AsFields(j.value, ["route", "payload"]);
    if fields.None? then None
    else
      var route, payload := StringField(fields.value, "route"), StringField(fields.value, "payload");
      if route.None? || payload.None? then None else Some(Packet(route.value, payload.value))
  }

  /** The packet that carries a message: its route names the kind of recipient, its payload is the encoded message. */
  function MessageToPacket(m: Message): Packet {
    Packet(if m.recipient.Private? then "message.private" else "message.group", EncodeJson(m))
  }

  // ---------------------------------------------------------------- one line

  lemma {:induction false} WireRoundTrip(p: Packet)
    ensures ParseWireLine(BuildWireLine(p)) == Some(p)
  {
    hide Find, Parse, Print;
    var es := WireFields(p);
    EntriesDepthBound(es, 0);
    DocumentRoundTrip(JObj(es));
    FoundAt(es, "route", 0);
    FoundAt(es, "payload", 1);
  }

  lemma {:induction false} LineLast(p: Packet)
    ensures BuildWireLine(p) != "" && BuildWireLine(p)[|BuildWireLine(p)| - 1] == '}'
  {
    hide PrintEntry;
    var es := WireFields(p);
    assert PrintEntries(es) == PrintEntry(es[0]) + ("," + PrintEntries(es[1..]));
  }

  lemma {:induction false} LineNoControl(p: Packet)
    ensures NoControl(BuildWireLine(p))
  {
    hide Print, NoControl;
    PrintNoControl(JObj(WireFields(p)));
  }

  /** A built line has no control character, in particular no line feed, and trimming its end changes nothing. */
  lemma {:induction false} LineShape(p: Packet)
    ensures NoControl(BuildWireLine(p)) && LF !in BuildWireLine(p)
    ensures TrimEnd(BuildWireLine(p) + [LF]) == BuildWireLine(p)
    ensures TrimEnd(BuildWireLine(p)) == BuildWireLine(p)
  {
    hide BuildWireLine;
    var s := BuildWireLine(p);
    LineNoControl(p);
    LineLast(p);
    assert (s + [LF])[..|s|] == s;
  }

  /** Main result for the codec: the message survives both layers of JSON exactly when its payloads fit the reader. */
  lemma {:induction false} NestedRoundTrip(m: Message)
    requires PayloadsFloatFree(m)
    ensures ParseWireLine(BuildWireLine(MessageToPacket(m))) == Some(MessageToPacket(m))
    ensures DecodeJson(ParseWireLine(BuildWireLine(MessageToPacket(m))).value.payload)
         == if PayloadsFit(m) then Some(m) else None
  {
    WireRoundTrip(MessageToPacket(m));
    TextRoundTrip(m);
  }

  lemma {:induction false} FieldSize(es: seq<Entry>, key: string, v: Json)
    requires Find(es, key) == Found(v)
    ensures Size(PrintEntries(es)) >= Size(PrintEntry(Entry(key, v))) + 1
  {
    hide PrintEntry, PrintEntries, Size;
    assert es == [es[0]] + es[1..];
    EntriesSize(es[0], es[1..]);
    if es[0].key != key { FieldSize(es[1..], key, v); }
  }

  lemma {:induction false} TwoFieldsSize(es: seq<Entry>, k1: string, v1: Json, k2: string, v2: Json)
    requires k1 != k2 && Find(es, k1) == Found(v1) && Find(es, k2) == Found(v2)
    ensures Size(PrintEntries(es)) >= Size(PrintEntry(Entry(k1, v1))) + Size(PrintEntry(Entry(k2, v2))) + 2
  {
    hide PrintEntry, PrintEntries, Size;
    assert es == [es[0]] + es[1..];
    EntriesSize(es[0], es[1..]);
    if es[0].key == k1 {
      FieldSize(es[1..], k2, v2);
    } else if es[0].key == k2 {
      FieldSize(es[1..], k1, v1);
    } else {
      TwoFieldsSize(es[1..], k1, v1, k2, v2);
    }
  }

  /** A text that ends in a brace and parses as a packet takes at least as many bytes as the line the writer would
      have built. */
  lemma {:induction false} WireShortest(t: string)
    requires ParseWireLine(t).Some? && t[|t| - 1] == '}'
    ensures Size(BuildWireLine(ParseWireLine(t).value)) <= Size(t)
  {
    hide Find, PrintEntry, ParseValue, Size, PrintEntries;
    BracedIsNoArray(t);
    var es := Parse(t).value.entries;
    var p := ParseWireLine(t).value;
    ValueShortest(t, MAX_DEPTH);
    TwoFieldsSize(es, "route", JStr(p.route), "payload", JStr(p.payload));
    SizeConcat("{", PrintEntries(es));
    SizeConcat("{", PrintEntries(WireFields(p)));
    TwoEntriesSize(WireFields(p)[0], WireFields(p)[1]);
  }

  function ArrayLine(p: Packet): string {
    Print(JArr([JStr(p.route), JStr(p.payload)]))
  }

  /** Without that brace it fails: the receiver also takes a packet as an array of two strings, 18 bytes shorter
      than the built line. */
  lemma {:induction false} ArrayLineIsShorter(p: Packet)
    ensures ParseWireLine(ArrayLine(p)) == Some(p)
    ensures Size(ArrayLine(p)) + 18 == Size(BuildWireLine(p))
  {
    hide Find, Parse, Print, Size;
    var items := [JStr(p.route), JStr(p.payload)];
    ItemsDepthBound(items, 0);
    DocumentRoundTrip(JArr(items));
    assert AsFields(JArr(items), ["route", "payload"]).value == WireFields(p);
    FoundAt(WireFields(p), "route", 0);
    FoundAt(WireFields(p), "payload", 1);
    ArrayLineSize(p);
  }

  lemma {:induction false} ArrayLineSize(p: Packet)
    ensures Size(ArrayLine(p)) + 18 == Size(BuildWireLine(p))
  {
    hide Size, PrintItems, PrintEntries, PrintEntry, PrintStr, Escape;
    var a, b := JStr(p.route), JStr(p.payload);
    assert [a, b] == [a] + [b] && [b] == [b] + [];
    ItemsSize(a, [b]);
    ItemsSize(b, []);
    SizeConcat("[", PrintItems([a, b]));
    SizeConcat("{", PrintEntries(WireFields(p)));
    AsciiSize("[");
    AsciiSize("{");
    TwoEntriesSize(WireFields(p)[0], WireFields(p)[1]);
    NamedStringSize("route", p.route);
    NamedStringSize("payload", p.payload);
    KeySizes();
  }

  lemma {:induction false} NamedStringSize(key: string, s: string)
    ensures Size(PrintEntry(Entry(key, JStr(s)))) == Size(Escape(key)) + 3 + Size(PrintStr(s))
  {
    hide Size, PrintEntry, Escape, PrintStr;
    EntrySize(Entry(key, JStr(s)));
  }

  lemma {:induction false} KeySizes()
    ensures Size(Escape("route")) == 5 && Size(Escape("payload")) == 7
  {
    PlainEscape("route");
    PlainEscape("payload");
    AsciiSize("route");
    AsciiSize("payload");
  }

  lemma {:induction false} PlainEscape(s: string)
    requires forall i | 0 <= i < |s| :: 'a' <= s[i] <= 'z'
    ensures Escape(s) == s
  {
    if s != "" {
      PlainEscape(s[1..]);
      assert s == [s[0]] + s[1..];
    }
  }

  lemma {:induction false} TwoEntriesSize(e: Entry, f: Entry)
    ensures Size(PrintEntries([e, f])) == Size(PrintEntry(e)) + Size(PrintEntry(f)) + 2
  {
    hide PrintEntry, PrintEntries, Size;
    assert [e, f] == [e] + [f] && [f] == [f] + [];
    EntriesSize(e, [f]);
    EntriesSize(f, []);
  }

  // ---------------------------------------------------------------- streams

  /** What the sender writes for a packet, up to its line feed. */
  function LineBytes(p: Packet): seq<byte> {
    Bytes(BuildWireLine(p))
  }

  /** What the sender writes: every line followed by a line feed. */
  function Stream(ps: seq<Packet>): seq<byte> {
    if ps == [] then [] else LineBytes(ps[0]) + [LF_BYTE] + Stream(ps[1..])
  }

  /** The pieces of a stream, cut at line feeds. */
  function SplitLines(s: seq<byte>, acc: seq<byte> := []): seq<seq<byte>>
    decreases |s|
  {
    if s == [] then []
    else if s[0] == LF_BYTE then [acc] + SplitLines(s[1..])
    else SplitLines(s[1..], acc + [s[0]])
  }

  lemma {:induction false} SplitOneLine(line: seq<byte>, rest: seq<byte>, acc: seq<byte>)
    requires LF_BYTE !in line
    ensures SplitLines(line + [LF_BYTE] + rest, acc) == [acc + line] + SplitLines(rest)
    decreases |line|
  {
    var s := line + [LF_BYTE] + rest;
    if line == [] {
      assert s[1..] == rest && acc + line == acc;
    } else {
      assert s[1..] == line[1..] + [LF_BYTE] + rest;
      SplitOneLine(line[1..], rest, acc + [line[0]]);
      assert acc + [line[0]] + line[1..] == acc + line;
    }
  }

  /** One line as bytes, with its line feed or without: it must be text, and the text a packet. */
  ghost function ParseBytes(b: seq<byte>): Option<Packet> {
    var text := FromUtf8(b);
    if text.None? then None else ParseWireLine(TrimEnd(text.value))
  }

  ghost function ParsePieces(lines: seq<seq<byte>>): seq<Option<Packet>> {
    seq(|lines|, i requires 0 <= i < |lines| => ParseBytes(lines[i]))
  }

  function Delivered(ps: seq<Packet>): seq<Option<Packet>> {
    seq(|ps|, i requires 0 <= i < |ps| => Some(ps[i]))
  }

  lemma {:induction false} BytesOfOne(c: char)
    ensures Bytes([c]) == CharBytes(c)
  {
    assert [c][1..] == "" && Bytes([c]) == CharBytes(c) + Bytes([c][1..]);
  }

  /** The bytes of a line hold no line feed and are read back, with a line feed behind them or without. */
  lemma {:induction false} LineIsRead(p: Packet)
    ensures LF_BYTE !in LineBytes(p)
    ensures ParseBytes(LineBytes(p)) == Some(p) && ParseBytes(LineBytes(p) + [LF_BYTE]) == Some(p)
  {
    hide BuildWireLine, ParseWireLine, TrimEnd;
    var line := BuildWireLine(p);
    LineShape(p);
    WireRoundTrip(p);
    LineFeedByte(line);
    EncodedIsRead(line);
    EncodedIsRead(line + [LF]);
    BytesConcat(line, [LF]);
    BytesOfOne(LF);
  }

  /** Cutting a stream at its line feeds and parsing the pieces gives back exactly the packets, in order. */
  lemma {:induction false} Framing(ps: seq<Packet>)
    ensures ParsePieces(SplitLines(Stream(ps))) == Delivered(ps)
  {
    hide LineBytes, ParseBytes;
    if ps != [] {
      var line, rest := LineBytes(ps[0]), Stream(ps[1..]);
      LineIsRead(ps[0]);
      SplitOneLine(line, rest, []);
      Framing(ps[1..]);
      var ls := SplitLines(rest);
      assert [] + line == line;
      assert ([line] + ls)[1..] == ls;
      assert ParsePieces([line] + ls) == [Some(ps[0])] + ParsePieces(ls);
      assert Delivered(ps) == [Some(ps[0])] + Delivered(ps[1..]);
    }
  }

  // ---------------------------------------------------------------- the receiver

  const BRACE_BYTE: byte := 0x7D

  type pos = n: int | 0 < n witness 1

  datatype Received = Arrived(packet: Packet) | EndOfStream | TimedOut | NotText | Malformed

  /** `net` is what the peer has still to deliver before it closes, `fills` the sizes of the reads that will succeed. */
  datatype LineRead = LineRead(line: seq<byte>, net: seq<byte>, fills: seq<pos>) | NoLine(net: seq<byte>)

  function Fill(net: seq<byte>, k: pos): nat {
    if k < |net| then k else |net|
  }

  function FirstLF(s: seq<byte>): nat
    ensures FirstLF(s) <= |s| && LF_BYTE !in s[..FirstLF(s)]
    ensures FirstLF(s) < |s| ==> s[FirstLF(s)] == LF_BYTE
  {
    if s == [] || s[0] == LF_BYTE then 0 else 1 + FirstLF(s[1..])
  }

  /** `read_line` on a fresh buffered reader: fill after fill until one holds a line feed. What that fill holds
      behind the line feed is in the buffer, and is lost when the reader is dropped. */
  function ReadLine(net: seq<byte>, fills: seq<pos>, acc: seq<byte>): LineRead
    decreases |fills|
  {
    if net == [] then LineRead(acc, net, fills)
    else if fills == [] then NoLine(net)
    else
      var k := Fill(net, fills[0]);
      var chunk := net[..k];
      var i := FirstLF(chunk);
      if i < k then LineRead(acc + chunk[..i + 1], net[k..], fills[1..])
      else ReadLine(net[k..], fills[1..], acc + chunk)
  }

  /** What one line read means. */
  ghost function Outcome(line: seq<byte>): Received {
    if line == [] then EndOfStream
    else if FromUtf8(line).None? then NotText
    else if ParseBytes(line).None? then Malformed
    else Arrived(ParseBytes(line).value)
  }

  /** The outcomes of `n` calls of the receive function. */
  ghost function Receive(n: nat, net: seq<byte>, fills: seq<pos>): seq<Received> {
    if n == 0 then []
    else
      match ReadLine(net, fills, [])
      case NoLine(net') => [TimedOut] + Receive(n - 1, net', [])
      case LineRead(line, net', fills') => [Outcome(line)] + Receive(n - 1, net', fills')
  }

  function AllArrived(ps: seq<Packet>): seq<Received> {
    seq(|ps|, i requires 0 <= i < |ps| => Arrived(ps[i]))
  }

  /** No fill reaches past a line feed. */
  predicate Aligned(net: seq<byte>, fills: seq<pos>)
    decreases |fills|
  {
    net == [] || fills == []
    || (var k := Fill(net, fills[0]); LF_BYTE !in net[..k - 1] && Aligned(net[k..], fills[1..]))
  }

  /** The reads bring in everything that was sent. */
  predicate Covers(net: seq<byte>, fills: seq<pos>)
    decreases |fills|
  {
    net == [] || (fills != [] && Covers(net[Fill(net, fills[0])..], fills[1..]))
  }

  /** A fill that stops within the line. */
  lemma {:induction false} FillWithin(line: seq<byte>, rest: seq<byte>, k: nat)
    requires LF_BYTE !in line && 0 < k <= |line|
    ensures var s := line + [LF_BYTE] + rest;
            && s[..k] == line[..k] && s[k..] == line[k..] + [LF_BYTE] + rest
            && FirstLF(s[..k]) == k && LF_BYTE !in s[..k - 1]
  {
    var s := line + [LF_BYTE] + rest;
    assert s[..k] == line[..k] && s[..k - 1] == line[..k - 1];
  }

  /** A fill that brings in the end of the line. */
  lemma {:induction false} FillAcross(line: seq<byte>, rest: seq<byte>, k: nat)
    requires LF_BYTE !in line && |line| < k <= |line + [LF_BYTE] + rest|
    ensures var s := line + [LF_BYTE] + rest;
            && FirstLF(s[..k]) == |line| && s[..k][..|line| + 1] == line + [LF_BYTE]
            && s[k..] == rest[k - |line| - 1..]
            && (LF_BYTE !in s[..k - 1] <==> k == |line| + 1)
  {
    var s := line + [LF_BYTE] + rest;
    LineEndsAt(line, rest, k);
    if k == |line| + 1 {
      assert s[..k - 1] == line;
    } else {
      assert s[..k - 1][|line|] == LF_BYTE;
    }
  }

  /** Reading one line: it always arrives whole, and the rest of the stream is intact exactly when the
      reads stayed aligned. */
  lemma {:induction false} ReadOneLine(line: seq<byte>, rest: seq<byte>, fills: seq<pos>, acc: seq<byte>)
    returns (net: seq<byte>, fills': seq<pos>)
    requires LF_BYTE !in line && Covers(line + [LF_BYTE] + rest, fills)
    ensures ReadLine(line + [LF_BYTE] + rest, fills, acc) == LineRead(acc + line + [LF_BYTE], net, fills')
    ensures |net| <= |rest| && net == rest[|rest| - |net|..] && Covers(net, fills')
    ensures Aligned(line + [LF_BYTE] + rest, fills) <==> |net| == |rest| && Aligned(rest, fills')
    decreases |fills|
  {
    hide FirstLF;
    var s := line + [LF_BYTE] + rest;
    var k := Fill(s, fills[0]);
    var chunk := s[..k];
    if k <= |line| {
      FillWithin(line, rest, k);
      net, fills' := ReadOneLine(line[k..], rest, fills[1..], acc + chunk);
      Rejoin(acc, line, k);
    } else {
      FillAcross(line, rest, k);
      net, fills' := s[k..], fills[1..];
      Associative(acc, line, [LF_BYTE]);
    }
  }

  /** What stands behind the last line feed is read as a line too, at the end of the stream. */
  lemma {:induction false} ReadUnended(tail: seq<byte>, fills: seq<pos>, acc: seq<byte>) returns (fills': seq<pos>)
    requires LF_BYTE !in tail && Covers(tail, fills)
    ensures ReadLine(tail, fills, acc) == LineRead(acc + tail, [], fills')
    decreases |fills|
  {
    hide FirstLF;
    if tail == [] {
      assert acc + tail == acc;
      fills' := fills;
    } else {
      var k := Fill(tail, fills[0]);
      assert LF_BYTE !in tail[..k];
      fills' := ReadUnended(tail[k..], fills[1..], acc + tail[..k]);
      Rejoin(acc, tail, k);
    }
  }

  lemma {:induction false} Rejoin(acc: seq<byte>, line: seq<byte>, k: nat)
    requires k <= |line|
    ensures acc + line[..k] + line[k..] == acc + line
  {
  }

  lemma {:induction false} LineEndsAt(line: seq<byte>, rest: seq<byte>, k: nat)
    requires LF_BYTE !in line && |line| < k <= |line + [LF_BYTE] + rest|
    ensures FirstLF((line + [LF_BYTE] + rest)[..k]) == |line|
  {
    var s := line + [LF_BYTE] + rest;
    var chunk := s[..k];
    assert s[|line|] == LF_BYTE && chunk[|line|] == LF_BYTE;
    assert forall j | 0 <= j < |line| :: s[j] == line[j] && line[j] in line;
  }

  /** Every line feed has a brace before it, or is the first byte. */
  predicate Braced(net: seq<byte>) {
    forall i | 0 < i < |net| && net[i] == LF_BYTE :: net[i - 1] == BRACE_BYTE
  }

  /** What one line read takes is a line with its line feed, and what it leaves is an end of the stream. */
  lemma {:induction false} ReadConsumes(net: seq<byte>, fills: seq<pos>, acc: seq<byte>)
    requires net != [] && net[|net| - 1] == LF_BYTE && ReadLine(net, fills, acc).LineRead?
    ensures var r := ReadLine(net, fills, acc);
            && |acc| < |r.line| <= |acc| + |net| && r.line == (acc + net)[..|r.line|]
            && r.line[|r.line| - 1] == LF_BYTE
            && |r.net| + |r.line| <= |net| + |acc| && r.net == net[|net| - |r.net|..]
    decreases |fills|
  {
    hide FirstLF, ReadLine;
    ReadUnfolds(net, fills, acc);
    var k := Fill(net, fills[0]);
    var i := FirstLF(net[..k]);
    ChunkFacts(net, k, i, acc);
    if i == k {
      ReadConsumes(net[k..], fills[1..], acc + net[..k]);
      var r := ReadLine(net, fills, acc);
      SuffixOfRest(net, k, r.net);
    }
  }

  lemma {:induction false} ReadUnfolds(net: seq<byte>, fills: seq<pos>, acc: seq<byte>)
    requires net != [] && ReadLine(net, fills, acc).LineRead?
    ensures fills != []
    ensures var k := Fill(net, fills[0]);
            var i := FirstLF(net[..k]);
            0 < k <= |net| && i <= k
            && ReadLine(net, fills, acc)
               == if i < k then LineRead(acc + net[..k][..i + 1], net[k..], fills[1..])
                  else ReadLine(net[k..], fills[1..], acc + net[..k])
  {
  }

  lemma {:induction false} ChunkFacts(net: seq<byte>, k: nat, i: nat, acc: seq<byte>)
    requires net != [] && net[|net| - 1] == LF_BYTE && 0 < k <= |net| && i == FirstLF(net[..k])
    ensures i == k ==> k < |net| && net[k..][|net| - k - 1] == LF_BYTE && acc + net[..k] + net[k..] == acc + net
    ensures i < k ==>
              var line := acc + net[..k][..i + 1];
              line == (acc + net)[..|acc| + i + 1] && line[|line| - 1] == LF_BYTE
  {
    assert net[..|net|] == net && LF_BYTE in net;
  }

  lemma {:induction false} SuffixOfRest(net: seq<byte>, k: nat, rest: seq<byte>)
    requires k <= |net| && |rest| <= |net| - k && rest == net[k..][|net| - k - |rest|..]
    ensures rest == net[|net| - |rest|..]
  {
  }

  /** A line that ends in a brace and a line feed and parses takes at least the bytes of the built line
      and its line feed. */
  lemma {:induction false} ParsedLineSize(line: seq<byte>)
    requires |line| >= 2 && line[|line| - 1] == LF_BYTE && line[|line| - 2] == BRACE_BYTE && ParseBytes(line).Some?
    ensures |LineBytes(ParseBytes(line).value)| + 1 <= |line|
  {
    hide ParseWireLine, BuildWireLine, TrimEnd, CharBytes;
    var t := FromUtf8(line).value;
    var init := LastChar(t, LF);
    assert Bytes(init)[|Bytes(init)| - 1] == line[|line| - 2];
    var front := LastChar(init, '}');
    TrimmedLineFeed(init);
    WireShortest(init);
  }

  /** A text whose last byte is an ASCII character ends in that character. */
  lemma {:induction false} LastChar(t: string, c: char) returns (init: string)
    requires c as int < 0x80 && Bytes(t) != [] && Bytes(t)[|Bytes(t)| - 1] == c as int
    ensures t == init + [c] && Bytes(t) == Bytes(init) + [c as int]
  {
    hide CharBytes;
    var last := t[|t| - 1];
    init := t[..|t| - 1];
    assert t == init + [last];
    BytesConcat(init, [last]);
    BytesOfOne(last);
    CharShape(last);
    var e := CharBytes(last);
    assert e[|e| - 1] == c as int;
    OneByteChar(last);
  }

  lemma {:induction false} OneByteChar(c: char)
    ensures var e := CharBytes(c); |e| == 1 && e[0] < 0x80 ==> e == [c as int]
    ensures CharBytes(c)[|CharBytes(c)| - 1] < 0x80 ==> CharBytes(c) == [c as int]
  {
  }

  lemma {:induction false} TrimmedLineFeed(init: string)
    requires init != "" && init[|init| - 1] == '}'
    ensures TrimEnd(init + [LF]) == init
  {
    var t := init + [LF];
    assert t[..|t| - 1] == init;
  }

  /** The first of several receives, when a line comes in. */
  lemma {:induction false} FirstReceived(n: nat, net: seq<byte>, fills: seq<pos>)
    requires n > 0 && ReadLine(net, fills, []).LineRead?
    ensures var r := ReadLine(net, fills, []);
            Receive(n, net, fills) == [Outcome(r.line)] + Receive(n - 1, r.net, r.fills)
  {
    hide Outcome, ReadLine;
  }

  lemma {:induction false} NothingReceived(n: nat, net: seq<byte>, fills: seq<pos>)
    requires n > 0 && (net == [] || ReadLine(net, fills, []).NoLine?)
    ensures Receive(n, net, fills)[0] == (if net == [] then EndOfStream else TimedOut)
  {
    hide ParseBytes, FromUtf8;
  }

  /** All packets arrive only if the first line read is the first packet and the others arrive after it. */
  lemma {:induction false} HeadDecides(ps: seq<Packet>, net: seq<byte>, fills: seq<pos>)
    requires ps != [] && Receive(|ps|, net, fills) == AllArrived(ps)
    ensures net != [] && ReadLine(net, fills, []).LineRead?
    ensures var r := ReadLine(net, fills, []);
            Outcome(r.line) == Arrived(ps[0]) && Receive(|ps| - 1, r.net, r.fills) == AllArrived(ps[1..])
  {
    hide Receive, ReadLine, Outcome, AllArrived;
    ArrivedCons(ps[0], ps[1..]);
    assert ps == [ps[0]] + ps[1..];
    var r := ReadLine(net, fills, []);
    if net == [] || r.NoLine? {
      NothingReceived(|ps|, net, fills);
    } else {
      FirstReceived(|ps|, net, fills);
      SameCons(Outcome(r.line), Arrived(ps[0]), Receive(|ps| - 1, r.net, r.fills), AllArrived(ps[1..]));
    }
  }

  /** What is left after the first packet's line is still too short. */
  lemma {:induction false} TailTooShort(ps: seq<Packet>, net: seq<byte>, fills: seq<pos>)
    requires ps != [] && net != [] && |net| < |Stream(ps)| && net[|net| - 1] == LF_BYTE && Braced(net)
    requires ReadLine(net, fills, []).LineRead? && Outcome(ReadLine(net, fills, []).line) == Arrived(ps[0])
    ensures var rest := ReadLine(net, fills, []).net;
            |rest| < |Stream(ps[1..])| && Braced(rest) && (rest != [] ==> rest[|rest| - 1] == LF_BYTE)
  {
    hide *;
    var r := ReadLine(net, fills, []);
    ReadConsumes(net, fills, []);
    assert [] + net == net;
    BracedStart(net, |r.line|);
    ArrivedLineSize(r.line, ps[0]);
    BracedEnd(net, r.net);
    StreamSize(ps);
  }

  /** Too few bytes, whose line feeds all close an object, cannot yield the packets, however they are cut. */
  lemma {:induction false} TooShort(ps: seq<Packet>, net: seq<byte>, fills: seq<pos>)
    requires |net| < |Stream(ps)| && (net != [] ==> net[|net| - 1] == LF_BYTE) && Braced(net)
    ensures Receive(|ps|, net, fills) != AllArrived(ps)
    decreases |ps|
  {
    hide Stream, Receive, ReadLine, Outcome, AllArrived, Braced;
    StreamSize(ps);
    if Receive(|ps|, net, fills) == AllArrived(ps) {
      HeadDecides(ps, net, fills);
      TailTooShort(ps, net, fills);
      var r := ReadLine(net, fills, []);
      TooShort(ps[1..], r.net, r.fills);
    }
  }

  lemma {:induction false} BracedEnd(net: seq<byte>, rest: seq<byte>)
    requires Braced(net) && |rest| <= |net| && rest == net[|net| - |rest|..]
    ensures Braced(rest) && (rest != [] ==> rest[|rest| - 1] == net[|net| - 1])
  {
  }

  lemma {:induction false} BracedStart(net: seq<byte>, n: nat)
    requires Braced(net) && n <= |net|
    ensures Braced(net[..n])
  {
  }

  lemma {:induction false} ArrivedLineSize(line: seq<byte>, p: Packet)
    requires line != [] && line[|line| - 1] == LF_BYTE && Braced(line) && Outcome(line) == Arrived(p)
    ensures |LineBytes(p)| + 1 <= |line|
  {
    hide ParseWireLine, LineBytes;
    if |line| == 1 {
      LoneLineFeed(line);
    } else {
      ParsedLineSize(line);
    }
  }

  lemma {:induction false} LoneLineFeed(line: seq<byte>)
    requires line == [LF_BYTE]
    ensures ParseBytes(line).None?
  {
    BytesOfOne(LF);
    EncodedIsRead([LF]);
    assert [LF][..0] == "" && TrimEnd([LF]) == "";
  }

  lemma {:induction false} LineEndsInBrace(p: Packet)
    ensures LineBytes(p) != [] && LineBytes(p)[|LineBytes(p)| - 1] == BRACE_BYTE
  {
    hide BuildWireLine;
    var s := BuildWireLine(p);
    LineLast(p);
    assert s == s[..|s| - 1] + ['}'];
    BytesConcat(s[..|s| - 1], ['}']);
    BytesOfOne('}');
  }

  lemma {:induction false} StreamIsBraced(ps: seq<Packet>)
    ensures Braced(Stream(ps))
  {
    hide LineBytes;
    if ps != [] {
      var line, rest := LineBytes(ps[0]), Stream(ps[1..]);
      LineIsRead(ps[0]);
      LineEndsInBrace(ps[0]);
      StreamIsBraced(ps[1..]);
      FirstByte(ps[1..]);
      BracedConcat(line, rest);
    }
  }

  /** No stream starts with a line feed. */
  lemma {:induction false} FirstByte(ps: seq<Packet>)
    ensures Stream(ps) != [] ==> Stream(ps)[0] != LF_BYTE
  {
    hide LineBytes;
    if ps != [] {
      LineIsRead(ps[0]);
      LineEndsInBrace(ps[0]);
      assert LineBytes(ps[0])[0] in LineBytes(ps[0]);
    }
  }

  lemma {:induction false} BracedConcat(line: seq<byte>, rest: seq<byte>)
    requires LF_BYTE !in line && line != [] && line[|line| - 1] == BRACE_BYTE
    requires Braced(rest) && (rest != [] ==> rest[0] != LF_BYTE)
    ensures Braced(line + [LF_BYTE] + rest)
  {
    var s := line + [LF_BYTE] + rest;
    assert forall i | 0 <= i < |line| :: s[i] == line[i] && line[i] in line;
    forall i | |line| < i < |s| && s[i] == LF_BYTE ensures s[i - 1] == BRACE_BYTE {
      assert rest[i - |line| - 1] == LF_BYTE;
    }
  }

  lemma {:induction false} StreamSize(ps: seq<Packet>)
    ensures ps == [] ==> |Stream(ps)| == 0
    ensures ps != [] ==> |Stream(ps)| == |LineBytes(ps[0])| + 1 + |Stream(ps[1..])|
  {
  }

  lemma {:induction false} ArrivedCons(p: Packet, ps: seq<Packet>)
    ensures AllArrived([p] + ps) == [Arrived(p)] + AllArrived(ps)
  {
  }

  /** Main result for the receiver: the packets all arrive, in order, exactly when no fill reaches past a line feed. */
  lemma {:induction false} ReceiveExact(ps: seq<Packet>, fills: seq<pos>)
    requires Covers(Stream(ps), fills)
    ensures Receive(|ps|, Stream(ps), fills) == AllArrived(ps) <==> Aligned(Stream(ps), fills)
    decreases |ps|
  {
    hide LineBytes, ParseBytes, Covers, ReadLine, Outcome, AllArrived;
    if ps == [] {
      assert Receive(0, [], fills) == [] == AllArrived([]) by { NoneArrive(); }
    } else {
      hide Receive, Aligned;
      var line, rest := LineBytes(ps[0]), Stream(ps[1..]);
      LineIsRead(ps[0]);
      var net, fills' := ReadOneLine(line, rest, fills, []);
      assert [] + line + [LF_BYTE] == line + [LF_BYTE];
      ReadIsText(line + [LF_BYTE], ps[0]);
      FirstReceived(|ps|, Stream(ps), fills);
      ArrivedCons(ps[0], ps[1..]);
      assert ps == [ps[0]] + ps[1..];
      SameCons(Arrived(ps[0]), Arrived(ps[0]), Receive(|ps| - 1, net, fills'), AllArrived(ps[1..]));
      if |net| == |rest| {
        ReceiveExact(ps[1..], fills');
      } else {
        StreamEnds(ps[1..]);
        StreamIsBraced(ps[1..]);
        BracedEnd(rest, net);
        TooShort(ps[1..], net, fills');
      }
    }
  }

  lemma {:induction false} NoneArrive()
    ensures AllArrived([]) == []
  {
  }

  lemma {:induction false} ReadIsText(line: seq<byte>, p: Packet)
    requires line != [] && ParseBytes(line) == Some(p)
    ensures Outcome(line) == Arrived(p)
  {
  }

  lemma {:induction false} StreamEnds(ps: seq<Packet>)
    ensures Stream(ps) != [] ==> Stream(ps)[|Stream(ps)| - 1] == LF_BYTE
  {
    if ps != [] { StreamEnds(ps[1..]); }
  }

  /** One read brings in everything, and the reader keeps the first line of it. */
  lemma {:induction false} OneReadTakesAll(line: seq<byte>, rest: seq<byte>)
    requires LF_BYTE !in line && rest != []
    ensures var s := line + [LF_BYTE] + rest;
            Covers(s, [|s|]) && !Aligned(s, [|s|]) && ReadLine(s, [|s|], []) == LineRead(line + [LF_BYTE], [], [])
  {
    var s := line + [LF_BYTE] + rest;
    assert s[|s|..] == [] && s[..|s|] == s;
    LineEndsAt(line, rest, |s|);
    assert [] + s[..|line| + 1] == line + [LF_BYTE];
    assert s[..|s| - 1][|line|] == LF_BYTE;
  }

  lemma {:induction false} ReceiveTwo(net: seq<byte>, fills: seq<pos>, line: seq<byte>)
    requires ReadLine(net, fills, []) == LineRead(line, [], [])
    ensures Receive(2, net, fills) == [Outcome(line), EndOfStream]
  {
    assert ReadLine([], [], []) == LineRead([], [], []);
    assert Receive(1, [], []) == [Outcome([])] + Receive(0, [], []);
    assert Receive(2, net, fills) == [Outcome(line)] + Receive(1, [], []);
  }

  /** A read across a line feed does lose packets: two packets that arrive in one read yield the first one only. */
  lemma {:induction false} OneReadLosesSecond(p: Packet, q: Packet)
    ensures var s := Stream([p, q]);
            Covers(s, [|s|]) && !Aligned(s, [|s|]) && Receive(2, s, [|s|]) == [Arrived(p), EndOfStream]
  {
    hide LineBytes, ParseBytes, Receive, ReadLine, Covers, Aligned, Outcome;
    var line, rest := LineBytes(p), Stream([q]);
    assert [p, q][1..] == [q] && Stream([p, q]) == line + [LF_BYTE] + rest;
    LineIsRead(p);
    StreamSize([q]);
    OneReadTakesAll(line, rest);
    ReadIsText(line + [LF_BYTE], p);
    ReceiveTwo(Stream([p, q]), [|Stream([p, q])|], line + [LF_BYTE]);
  }
}
