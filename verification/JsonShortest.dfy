/** No text that reads as a value takes fewer bytes than the printed form of that value. */
module JsonShortest {
  import opened JsonText
  import opened JsonLaws
  import opened Utf8

  lemma {:induction false} NatShortest(d: string)
    requires d != "" && forall c :: c in d ==> IsDigit(c)
    ensures |PrintNat(NatOf(d))| <= |d|
  {
    if NatOf(d) >= 10 {
      var e := d[..|d| - 1];
      assert d[|d| - 1] in d;
      assert NatOf(d) / 10 == NatOf(e);
      NatShortest(e);
    }
  }

  lemma {:induction false} DigitsAreAscii(d: string)
    requires forall c :: c in d ==> IsDigit(c)
    ensures IsAscii(d)
  {
    assert forall i | 0 <= i < |d| :: d[i] in d;
  }

  lemma {:induction false} NatSize(d: string)
    requires d != "" && forall c :: c in d ==> IsDigit(c)
    ensures Size(PrintNat(NatOf(d))) <= Size(d)
  {
    hide PrintNat, NatOf;
    NatShortest(d);
    PrintNatShape(NatOf(d));
    DigitsAreAscii(d);
    DigitsAreAscii(PrintNat(NatOf(d)));
    AsciiSize(d);
    AsciiSize(PrintNat(NatOf(d)));
  }

  /** What an accepted number consists of: its digits, or a literal taken over as it stands. */
  lemma {:induction false} UnsignedParts(s: string, negative: bool)
    requires ParseUnsigned(s, negative).Ok?
    ensures var r, d := ParseUnsigned(s, negative), Digits(s);
            && d != "" && |r.rest| <= |s| && r.rest == s[|s| - |r.rest|..]
            && if r.value.JNum? then
                 |r.rest| == |s| - |d| && r.value.n == (if negative then -(NatOf(d) as int) else NatOf(d))
                 && (negative ==> NatOf(d) > 0)
               else r.value == JFloat((if negative then "-" else "") + s[..|s| - |r.rest|])
  {
    hide NatOf, Digits, NumberEnd, InRange;
    var r, d := ParseUnsigned(s, negative), Digits(s);
    SuffixOfSuffix(s, |d|, r.rest);
  }

  /** A suffix of a suffix is a suffix. */
  lemma {:induction false} SuffixOfSuffix(s: string, i: nat, r: string)
    requires i <= |s| && |r| <= |s| - i && r == s[i..][|s| - i - |r|..]
    ensures r == s[|s| - |r|..]
  {
  }

  lemma {:induction false} UnsignedShortest(s: string, negative: bool)
    requires ParseUnsigned(s, negative).Ok?
    ensures var r := ParseUnsigned(s, negative);
            Size(Print(r.value)) + Size(r.rest) <= Size(s) + if negative then 1 else 0
  {
    hide PrintNat, NatOf, Digits, Size, ParseUnsigned;
    UnsignedParts(s, negative);
    var r := ParseUnsigned(s, negative);
    var text := s[..|s| - |r.rest|];
    SizeSplit(s, |s| - |r.rest|);
    AsciiSize("-");
    if r.value.JNum? {
      var d := Digits(s);
      assert text == d;
      NatSize(d);
      SizeConcat("-", PrintNat(NatOf(d)));
    } else {
      SizeConcat("-", text);
      assert "" + text == text;
    }
  }

  lemma {:induction false} NumberShortest(s: string)
    requires s != "" && ParseNumber(s).Ok?
    ensures Size(Print(ParseNumber(s).value)) + Size(ParseNumber(s).rest) <= Size(s)
  {
    hide ParseUnsigned, Print, Size;
    if s[0] == '-' {
      SizeSplit(s, 1);
      assert s[..1] == "-";
      AsciiSize("-");
      UnsignedShortest(s[1..], true);
    } else {
      UnsignedShortest(s, false);
    }
  }

  /** A scalar value takes at most four bytes, an escape six or twelve. */
  lemma {:induction false} EscapedSize(c: char)
    ensures Size(EscapeChar(c)) <= 6
    ensures Size([c]) <= 4
    ensures EscapeChar(c) == [c] || IsAscii(EscapeChar(c))
  {
    CharShape(c);
    assert [c][1..] == "" && Bytes("") == [];
    assert Bytes([c]) == CharBytes(c) + Bytes([c][1..]);
    if EscapeChar(c) != [c] { AsciiSize(EscapeChar(c)); }
    hide CharBytes;
  }

  lemma {:induction false} SimpleEscape(s: string)
    requires ParseEscape(s).Ok? && s[0] != 'u'
    ensures |ParseEscape(s).rest| == |s| - 1 && Size(EscapeChar(ParseEscape(s).value)) <= 2
  {
    hide Size;
    var e := EscapeChar(ParseEscape(s).value);
    assert |e| <= 2 && IsAscii(e);
    AsciiSize(e);
  }

  lemma {:induction false} EscapeCharShortest(s: string)
    requires ParseEscape(s).Ok?
    ensures Size(EscapeChar(ParseEscape(s).value)) + Size(ParseEscape(s).rest) <= Size(s) + 1
  {
    hide ParseUnicode, EscapeChar, Size;
    var r := ParseEscape(s);
    var i := |s| - |r.rest|;
    SizeSplit(s, i);
    SizeAtLeast(s[..i]);
    if s[0] == 'u' {
      EscapedSize(r.value);
    } else {
      SimpleEscape(s);
    }
  }

  lemma {:induction false} HeadSize(s: string)
    requires s != ""
    ensures Size(s) == Size([s[0]]) + Size(s[1..])
  {
    SizeSplit(s, 1);
    assert s[..1] == [s[0]];
  }

  lemma {:induction false} PlainChar(c: char)
    requires ' ' <= c && c != '"' && c != '\\'
    ensures EscapeChar(c) == [c]
  {
  }

  lemma {:induction false} EscapeCons(c: char, t: string)
    ensures Size(Escape([c] + t)) == Size(EscapeChar(c)) + Size(Escape(t))
  {
    hide EscapeChar, Size;
    assert ([c] + t)[1..] == t;
    SizeConcat(EscapeChar(c), Escape(t));
  }

  lemma {:induction false} StringShortest(s: string)
    requires ParseString(s).Ok?
    ensures Size(Escape(ParseString(s).value)) + 1 + Size(ParseString(s).rest) <= Size(s)
    decreases |s|
  {
    hide ParseEscape, EscapeChar, Size, Escape;
    HeadSize(s);
    if s[0] == '"' {
      AsciiSize("\"");
      EmptySize();
    } else {
      var c := if s[0] == '\\' then ParseEscape(s[1..]) else Parsed.Ok(s[0], s[1..]);
      if s[0] == '\\' {
        EscapeCharShortest(s[1..]);
        AsciiSize("\\");
      } else {
        PlainChar(s[0]);
      }
      StringShortest(c.rest);
      EscapeCons(c.value, ParseString(c.rest).value);
    }
  }

  lemma {:induction false} EmptySize()
    ensures Escape("") == "" && Size("") == 0
  {
  }

  lemma {:induction false} SkipSpaceSize(s: string)
    ensures Size(SkipSpace(s)) <= Size(s)
  {
    hide Size;
    if s != "" && IsJsonSpace(s[0]) {
      HeadSize(s);
      SkipSpaceSize(s[1..]);
    }
  }

  /** What stands behind a head character takes at least a byte less. */
  lemma {:induction false} TailSize(s: string, c: char)
    requires HasHead(s, c)
    ensures Size(s[1..]) + 1 <= Size(s)
  {
    hide Size;
    HeadSize(s);
    SizeAtLeast([s[0]]);
  }

  lemma {:induction false} SizeConcat3(a: string, b: string, c: string)
    ensures Size(a + b + c) == Size(a) + Size(b) + Size(c)
  {
    SizeConcat(a + b, c);
    SizeConcat(a, b);
  }

  lemma {:induction false} StrSize(s: string)
    ensures Size(PrintStr(s)) == Size(Escape(s)) + 2
  {
    SizeConcat3("\"", Escape(s), "\"");
    AsciiSize("\"");
  }

  lemma {:induction false} LiteralShortest(t: string, word: string, value: Json)
    requires word != "" && Ranged(value) && ParseLiteral(t, word, value).Ok?
    ensures Size(word) + Size(ParseLiteral(t, word, value).rest) <= Size(t)
  {
    hide Size;
    SizeSplit(t, |word|);
  }

  /** No text that reads as `j` takes fewer bytes than the printed form of `j`. */
  lemma {:induction false} ValueShortest(s: string, depth: nat)
    requires ParseValue(s, depth).Ok?
    ensures Size(Print(ParseValue(s, depth).value)) + Size(ParseValue(s, depth).rest) <= Size(s)
    decreases |s|, 2
  {
    hide ParseToken, Size, Print;
    SkipSpaceSize(s);
    TokenShortest(SkipSpace(s), depth);
  }

  lemma {:induction false} TokenShortest(t: string, depth: nat)
    requires t != "" && ParseToken(t, depth).Ok?
    ensures Size(Print(ParseToken(t, depth).value)) + Size(ParseToken(t, depth).rest) <= Size(t)
    decreases |t|, 1
  {
    hide ParseNumber, ParseString, ParseArray, ParseObject, Escape, Size, PrintStr, PrintItems, PrintEntries, PrintInt;
    if t[0] == '"' {
      TailSize(t, '"');
      StringShortest(t[1..]);
      StrSize(ParseString(t[1..]).value);
    } else if t[0] == '[' {
      TailSize(t, '[');
      ArrayShortest(t[1..], depth - 1);
    } else if t[0] == '{' {
      TailSize(t, '{');
      ObjectShortest(t[1..], depth - 1);
    } else if t[0] == 'n' {
      LiteralShortest(t, "null", JNull);
    } else if t[0] == 't' {
      LiteralShortest(t, "true", JBool(true));
    } else if t[0] == 'f' {
      LiteralShortest(t, "false", JBool(false));
    } else {
      NumberShortest(t);
    }
  }

  lemma {:induction false} ArrayShortest(s: string, depth: nat)
    requires ParseArray(s, depth).Ok?
    ensures var r := ParseArray(s, depth); Size(Print(r.value)) + Size(r.rest) <= Size(s) + 1
    decreases |s|, 5
  {
    hide ParseItems, Size, PrintItems;
    var u := SkipSpace(s);
    SkipSpaceSize(s);
    if HasHead(u, ']') {
      TailSize(u, ']');
      AsciiSize("[]");
    } else {
      ItemsShortest(u, depth);
      SizeConcat("[", PrintItems(ParseItems(u, depth).value));
      AsciiSize("[");
    }
  }

  lemma {:induction false} ObjectShortest(s: string, depth: nat)
    requires ParseObject(s, depth).Ok?
    ensures var r := ParseObject(s, depth); Size(Print(r.value)) + Size(r.rest) <= Size(s) + 1
    decreases |s|, 5
  {
    hide ParseEntries, Size, PrintEntries;
    var u := SkipSpace(s);
    SkipSpaceSize(s);
    if HasHead(u, '}') {
      TailSize(u, '}');
      AsciiSize("{}");
    } else {
      EntriesShortest(u, depth);
      SizeConcat("{", PrintEntries(ParseEntries(u, depth).value));
      AsciiSize("{");
    }
  }

  lemma {:induction false} ItemsSize(x: Json, xs: seq<Json>)
    ensures Size(PrintItems([x] + xs)) == Size(Print(x)) + 1 + if xs == [] then 0 else Size(PrintItems(xs))
  {
    hide Print, Size;
    assert ([x] + xs)[1..] == xs;
    AsciiSize("]");
    AsciiSize(",");
    if xs == [] {
      SizeConcat(Print(x), "]");
    } else {
      SizeConcat(",", PrintItems(xs));
      SizeConcat(Print(x), "," + PrintItems(xs));
    }
  }

  lemma {:induction false} ItemsShortest(s: string, depth: nat)
    requires ParseItems(s, depth).Ok?
    ensures var r := ParseItems(s, depth);
            r.value != [] && Size(PrintItems(r.value)) + Size(r.rest) <= Size(s)
    decreases |s|, 3
  {
    hide ParseValue, Print, Size, PrintItems;
    var v := ParseValue(s, depth);
    ValueShortest(s, depth);
    var t := SkipSpace(v.rest);
    SkipSpaceSize(v.rest);
    if HasHead(t, ']') {
      TailSize(t, ']');
      ItemsSize(v.value, []);
      assert [v.value] + [] == [v.value];
    } else {
      TailSize(t, ',');
      ItemsShortest(t[1..], depth);
      ItemsSize(v.value, ParseItems(t[1..], depth).value);
    }
  }

  lemma {:induction false} EntrySize(e: Entry)
    ensures Size(PrintEntry(e)) == Size(Escape(e.key)) + 3 + Size(Print(e.value))
  {
    hide Size, Print;
    SizeConcat3(PrintStr(e.key), ":", Print(e.value));
    StrSize(e.key);
    AsciiSize(":");
  }

  lemma {:induction false} EntryShortest(s: string, depth: nat)
    requires ParseEntry(s, depth).Ok?
    ensures Size(PrintEntry(ParseEntry(s, depth).value)) + Size(ParseEntry(s, depth).rest) <= Size(s)
    decreases |s|, 3
  {
    hide ParseValue, Print, ParseString, Escape, Size, PrintEntry;
    var t := SkipSpace(s);
    SkipSpaceSize(s);
    TailSize(t, '"');
    var k := ParseString(t[1..]);
    StringShortest(t[1..]);
    var c := SkipSpace(k.rest);
    SkipSpaceSize(k.rest);
    TailSize(c, ':');
    ValueShortest(c[1..], depth);
    EntrySize(ParseEntry(s, depth).value);
  }

  lemma {:induction false} EntriesSize(e: Entry, es: seq<Entry>)
    ensures Size(PrintEntries([e] + es)) == Size(PrintEntry(e)) + 1 + if es == [] then 0 else Size(PrintEntries(es))
  {
    hide PrintEntry, Size;
    assert ([e] + es)[1..] == es;
    AsciiSize("}");
    AsciiSize(",");
    if es == [] {
      SizeConcat(PrintEntry(e), "}");
    } else {
      SizeConcat(",", PrintEntries(es));
      SizeConcat(PrintEntry(e), "," + PrintEntries(es));
    }
  }

  lemma {:induction false} EntriesShortest(s: string, depth: nat)
    requires ParseEntries(s, depth).Ok?
    ensures var r := ParseEntries(s, depth);
            r.value != [] && Size(PrintEntries(r.value)) + Size(r.rest) <= Size(s)
    decreases |s|, 4
  {
    hide ParseEntry, PrintEntry, Size, PrintEntries;
    var e := ParseEntry(s, depth);
    EntryShortest(s, depth);
    var t := SkipSpace(e.rest);
    SkipSpaceSize(e.rest);
    if HasHead(t, '}') {
      TailSize(t, '}');
      EntriesSize(e.value, []);
      assert [e.value] + [] == [e.value];
    } else {
      TailSize(t, ',');
      EntriesShortest(t[1..], depth);
      EntriesSize(e.value, ParseEntries(t[1..], depth).value);
    }
  }
}
